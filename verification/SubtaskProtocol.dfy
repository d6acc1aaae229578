/**
 * The subtask rows that the Conductor and its worker processes share (agent-runner/conductor.py,
 * agent-runner/conductor_worker.py), as a state machine over every interleaving of their steps.
 *
 * Atomic steps: a worker's stale check with its write; the Conductor's poll with its timeout write; the
 * replan write of `pending` with the attempt bump that follows it. The code makes the last two as separate
 * writes, and `SplitReplanIsSafeExactly` says when that makes no difference. A timeout kills a worker that
 * has not started; a started worker may finish arbitrarily late.
 */
module SubtaskProtocol {
  import Graph

  type Key = string

  datatype Status = Pending | Running | Done | Error | Blocked

  datatype Outcome = NoOutcome | Outcome(status: Status, summary: string)

  datatype Row = Row(status: Status, attempt: nat, result: Outcome)

  datatype Work = Work(key: Key, attempt: nat)

  datatype Applied = Applied(work: Work, result: Outcome)

  /**
   * `awaiting` are the keys the Conductor polls; `spawned` and `running` the workers before and after
   * they marked their row; `dispatches` and `applied` record what happened so far, in order.
   */
  datatype State = State(
    rows: map<Key, Row>, awaiting: set<Key>, spawned: set<Work>, running: set<Work>,
    dispatches: seq<Work>, applied: seq<Applied>)

  datatype Step =
    | RoundStart(redoAll: bool)
    | Resume
    | Dispatch(key: Key)
    | DispatchFail(key: Key, reason: string)
    | WorkerStart(work: Work)
    | WorkerFinish(work: Work, result: Outcome)
    | Timeout(key: Key)
    | Observe(key: Key)
    | BlockRest

  type Deps = map<Key, seq<Key>>

  const TIMEOUT := Outcome(Error, "worker timeout")

  predicate Terminal(status: Status) {
    status in {Done, Error, Blocked}
  }

  /** `result_is_stale`: a later attempt owns the row, or the row was timed out. */
  predicate Stale(attempt: nat, current: Row) {
    current.attempt != attempt || TimedOut(current)
  }

  predicate TimedOut(row: Row) {
    row.status == Error && row.result.Outcome? && row.result.summary == "worker timeout"
  }

  predicate DepsDone(rows: map<Key, Row>, deps: Deps, k: Key) {
    k in deps ==> forall d :: d in deps[k] ==> d in rows && rows[d].status == Done
  }

  predicate AllDone(rows: map<Key, Row>) {
    forall k :: k in rows ==> rows[k].status == Done
  }

  predicate Enabled(s: State, e: Step, deps: Deps) {
    match e
    case RoundStart(redoAll) => s.awaiting == {} && (redoAll ==> AllDone(s.rows))
    case Resume => s.spawned == {}
    case Dispatch(k) => k in s.rows && s.rows[k].status == Pending && k !in s.awaiting && DepsDone(s.rows, deps, k)
    case DispatchFail(k, _) => k in s.rows && s.rows[k].status == Pending && k !in s.awaiting && DepsDone(s.rows, deps, k)
    case WorkerStart(w) => w in s.spawned && w.key in s.rows
    case WorkerFinish(w, r) => w in s.running && w.key in s.rows && r.Outcome? && Terminal(r.status)
    case Timeout(k) => k in s.awaiting && k in s.rows && !Terminal(s.rows[k].status)
    case Observe(k) => k in s.awaiting && k in s.rows && Terminal(s.rows[k].status)
    case BlockRest => s.awaiting == {}
  }

  /** Every row that is not done, or every row when all are redone, goes back to pending in a new attempt. */
  function Reopened(rows: map<Key, Row>, redoAll: bool): map<Key, Row> {
    map k | k in rows ::
      if redoAll || rows[k].status != Done then Row(Pending, rows[k].attempt + 1, rows[k].result) else rows[k]
  }

  function Next(s: State, e: Step, deps: Deps): State
    requires Enabled(s, e, deps)
  {
    match e
    case RoundStart(redoAll) => s.(rows := Reopened(s.rows, redoAll))
    case Resume => s.(rows := Reopened(s.rows, false), awaiting := {})
    case Dispatch(k) =>
      var w := Work(k, s.rows[k].attempt);
      s.(awaiting := s.awaiting + {k}, spawned := s.spawned + {w}, dispatches := s.dispatches + [w])
    case DispatchFail(k, reason) =>
      s.(rows := s.rows[k := s.rows[k].(status := Error, result := Outcome(Error, reason))], awaiting := s.awaiting + {k})
    case WorkerStart(w) =>
      // The worker reads the attempt off its row, then marks the row running.
      s.(rows := s.rows[w.key := s.rows[w.key].(status := Running)],
         spawned := s.spawned - {w}, running := s.running + {Work(w.key, s.rows[w.key].attempt)})
    case WorkerFinish(w, r) =>
      if Stale(w.attempt, s.rows[w.key]) then s.(running := s.running - {w})
      else
        s.(rows := s.rows[w.key := s.rows[w.key].(status := r.status, result := r)],
           running := s.running - {w}, applied := s.applied + [Applied(w, r)])
    case Timeout(k) =>
      s.(rows := s.rows[k := s.rows[k].(status := Error, result := TIMEOUT)],
         awaiting := s.awaiting - {k}, spawned := set w | w in s.spawned && w.key != k)
    case Observe(k) => s.(awaiting := s.awaiting - {k})
    case BlockRest =>
      s.(rows := map k | k in s.rows ::
           if s.rows[k].status == Pending then s.rows[k].(status := Blocked) else s.rows[k])
  }

  ghost predicate Initial(s: State) {
    s.awaiting == {} && s.spawned == {} && s.running == {} && s.dispatches == [] && s.applied == []
  }

  /** Whether each step is enabled where it is taken. */
  ghost predicate IsRun(s: State, es: seq<Step>, deps: Deps)
    decreases |es|
  {
    es == [] || (Enabled(s, es[0], deps) && IsRun(Next(s, es[0], deps), es[1..], deps))
  }

  ghost function After(s: State, es: seq<Step>, deps: Deps): State
    requires IsRun(s, es, deps)
    decreases |es|
  {
    if es == [] then s else After(Next(s, es[0], deps), es[1..], deps)
  }

  // --------------------------------------------------------------------
  // The invariant
  // --------------------------------------------------------------------

  /** A worker of the current attempt finds its row running or timed out, and its dependencies done. */
  ghost predicate RunningOk(s: State, deps: Deps, w: Work) {
    && w.key in s.rows
    && w.attempt <= s.rows[w.key].attempt
    && (w.attempt == s.rows[w.key].attempt ==>
          && (s.rows[w.key].status == Running || TimedOut(s.rows[w.key]))
          && DepsDone(s.rows, deps, w.key))
  }

  ghost predicate SpawnedOk(s: State, deps: Deps, w: Work) {
    && w.key in s.rows
    && w.attempt == s.rows[w.key].attempt
    && s.rows[w.key].status == Pending
    && w.key in s.awaiting
    && DepsDone(s.rows, deps, w.key)
  }

  /** A dispatched attempt cannot be dispatched again. */
  ghost predicate DispatchedOk(s: State, w: Work) {
    && w.key in s.rows
    && w.attempt <= s.rows[w.key].attempt
    && (w.attempt == s.rows[w.key].attempt ==> s.rows[w.key].status != Pending || w.key in s.awaiting)
  }

  /** An applied attempt cannot be applied again: its row is final and its worker gone. */
  ghost predicate AppliedOk(s: State, a: Applied) {
    && a.work.key in s.rows
    && a.work.attempt <= s.rows[a.work.key].attempt
    && (a.work.attempt == s.rows[a.work.key].attempt ==>
          && Terminal(s.rows[a.work.key].status)
          && a.work !in s.running)
    && a.work in s.dispatches
  }

  ghost predicate Consistent(s: State, deps: Deps) {
    && (forall w :: w in s.running ==> RunningOk(s, deps, w) && w in s.dispatches)
    && (forall w :: w in s.spawned ==> SpawnedOk(s, deps, w) && w in s.dispatches)
    && (forall w :: w in s.dispatches ==> DispatchedOk(s, w))
    && (forall a :: a in s.applied ==> AppliedOk(s, a))
    && Graph.Distinct(s.dispatches)
    && (forall i, j :: 0 <= i < j < |s.applied| ==> s.applied[i].work != s.applied[j].work)
  }

  /** A row keeps its attempt or raises it, and a final row changes only by raising it. */
  ghost predicate RowMoves(before: Row, after: Row) {
    && before.attempt <= after.attempt <= before.attempt + 1
    && (Terminal(before.status) ==> after == before || after.attempt == before.attempt + 1)
    && (after.attempt == before.attempt + 1 ==> after.status == Pending)
  }

  ghost predicate RowsMove(before: map<Key, Row>, after: map<Key, Row>) {
    before.Keys == after.Keys && forall k :: k in before ==> RowMoves(before[k], after[k])
  }

  lemma StepMovesRows(s: State, e: Step, deps: Deps)
    requires Consistent(s, deps) && Enabled(s, e, deps)
    ensures RowsMove(s.rows, Next(s, e, deps).rows)
  {
    if e.WorkerFinish? {
      assert RunningOk(s, deps, e.work);
    } else if e.WorkerStart? {
      assert SpawnedOk(s, deps, e.work);
    }
  }

  lemma StepKeepsDispatches(s: State, e: Step, deps: Deps)
    requires Consistent(s, deps) && Enabled(s, e, deps)
    ensures var t := Next(s, e, deps);
            && Graph.Distinct(t.dispatches)
            && forall w :: w in t.dispatches ==> DispatchedOk(t, w)
  {
    var t := Next(s, e, deps);
    StepMovesRows(s, e, deps);
    forall w | w in t.dispatches ensures DispatchedOk(t, w) {
      if w in s.dispatches {
        assert DispatchedOk(s, w);
        assert RowMoves(s.rows[w.key], t.rows[w.key]);
      }
    }
    if e.Dispatch? {
      var w := Work(e.key, s.rows[e.key].attempt);
      assert !DispatchedOk(s, w);
      assert w !in s.dispatches;
    }
  }

  lemma StepKeepsWorkers(s: State, e: Step, deps: Deps)
    requires Consistent(s, deps) && Enabled(s, e, deps)
    ensures var t := Next(s, e, deps);
            && (forall w :: w in t.running ==> RunningOk(t, deps, w) && w in t.dispatches)
            && (forall w :: w in t.spawned ==> SpawnedOk(t, deps, w) && w in t.dispatches)
  {
    var t := Next(s, e, deps);
    StepMovesRows(s, e, deps);
    forall w | w in t.running ensures RunningOk(t, deps, w) && w in t.dispatches {
      if w in s.running {
        assert RunningOk(s, deps, w);
      } else {
        assert SpawnedOk(s, deps, e.work);
      }
    }
    forall w | w in t.spawned ensures SpawnedOk(t, deps, w) && w in t.dispatches {
      if w in s.spawned {
        assert SpawnedOk(s, deps, w);
      }
    }
  }

  lemma StepKeepsApplied(s: State, e: Step, deps: Deps)
    requires Consistent(s, deps) && Enabled(s, e, deps)
    ensures var t := Next(s, e, deps);
            && (forall a :: a in t.applied ==> AppliedOk(t, a))
            && forall i, j :: 0 <= i < j < |t.applied| ==> t.applied[i].work != t.applied[j].work
  {
    var t := Next(s, e, deps);
    StepMovesRows(s, e, deps);
    forall a | a in t.applied ensures AppliedOk(t, a) {
      if a in s.applied {
        assert AppliedOk(s, a);
        assert RowMoves(s.rows[a.work.key], t.rows[a.work.key]);
      }
    }
    if e.WorkerFinish? {
      assert RunningOk(s, deps, e.work);
      forall i | 0 <= i < |s.applied| ensures s.applied[i].work != e.work || Stale(e.work.attempt, s.rows[e.work.key]) {
        assert s.applied[i] in s.applied;
        assert AppliedOk(s, s.applied[i]);
      }
    }
  }

  lemma StepKeepsConsistent(s: State, e: Step, deps: Deps)
    requires Consistent(s, deps) && Enabled(s, e, deps)
    ensures Consistent(Next(s, e, deps), deps)
  {
    hide Next, RunningOk, SpawnedOk, DispatchedOk, AppliedOk, Enabled;
    StepKeepsDispatches(s, e, deps);
    StepKeepsWorkers(s, e, deps);
    StepKeepsApplied(s, e, deps);
  }

  // --------------------------------------------------------------------
  // Over whole runs
  // --------------------------------------------------------------------

  lemma {:induction false} RunsKeepConsistent(s: State, es: seq<Step>, deps: Deps)
    requires Consistent(s, deps) && IsRun(s, es, deps)
    ensures Consistent(After(s, es, deps), deps)
    decreases |es|
  {
    hide Consistent, Next, Enabled;
    if es == [] {
    } else {
      StepKeepsConsistent(s, es[0], deps);
      RunsKeepConsistent(Next(s, es[0], deps), es[1..], deps);
    }
  }

  /**
   * Within an attempt the first final row is the last: a row that is done, failed, blocked or timed out
   * keeps its status and its result until the row is given a new attempt.
   */
  lemma {:induction false} FinalRowsStayFinal(s: State, es: seq<Step>, deps: Deps, k: Key)
    requires Consistent(s, deps) && IsRun(s, es, deps) && k in s.rows
    ensures var t := After(s, es, deps);
            && k in t.rows
            && s.rows[k].attempt <= t.rows[k].attempt
            && (Terminal(s.rows[k].status) && t.rows[k].attempt == s.rows[k].attempt ==> t.rows[k] == s.rows[k])
    decreases |es|
  {
    hide Consistent, Next, Enabled, Terminal;
    if es == [] {
    } else {
      var u := Next(s, es[0], deps);
      StepMovesRows(s, es[0], deps);
      assert RowMoves(s.rows[k], u.rows[k]);
      StepKeepsConsistent(s, es[0], deps);
      FinalRowsStayFinal(u, es[1..], deps, k);
    }
  }

  /** An applied result overwrites only a running row of its own attempt, with every dependency done. */
  lemma AppliedResultIsCurrent(s: State, deps: Deps, w: Work, r: Outcome)
    requires Consistent(s, deps) && Enabled(s, WorkerFinish(w, r), deps)
    ensures var t := Next(s, WorkerFinish(w, r), deps);
            if t.applied != s.applied then
              && s.rows[w.key].attempt == w.attempt
              && s.rows[w.key].status == Running
              && DepsDone(s.rows, deps, w.key)
              && t.rows == s.rows[w.key := Row(r.status, w.attempt, r)]
            else
              && t.rows == s.rows
              && (s.rows[w.key].attempt > w.attempt || TimedOut(s.rows[w.key]))
  {
    assert RunningOk(s, deps, w);
    assert s.applied + [Applied(w, r)] != s.applied;
  }

  /** Every done row was done from the start, or holds the one result its own attempt's worker reported. */
  ghost predicate Earned(init: State, s: State) {
    && init.rows.Keys == s.rows.Keys
    && forall k :: k in s.rows && s.rows[k].status == Done ==>
         || s.rows[k] == init.rows[k]
         || Applied(Work(k, s.rows[k].attempt), s.rows[k].result) in s.applied
  }

  lemma StepKeepsEarned(init: State, s: State, e: Step, deps: Deps)
    requires Earned(init, s) && Enabled(s, e, deps)
    ensures Earned(init, Next(s, e, deps))
  {
    var t := Next(s, e, deps);
    forall k | k in t.rows && t.rows[k].status == Done
      ensures t.rows[k] == init.rows[k] || Applied(Work(k, t.rows[k].attempt), t.rows[k].result) in t.applied
    {
      if s.rows[k].status != Done {
        assert t.applied[|t.applied| - 1] == Applied(Work(k, t.rows[k].attempt), t.rows[k].result);
      }
    }
  }

  lemma {:induction false} DoneIsEarned(init: State, s: State, es: seq<Step>, deps: Deps)
    requires Earned(init, s) && IsRun(s, es, deps)
    ensures Earned(init, After(s, es, deps))
    decreases |es|
  {
    hide Earned, Next, Enabled;
    if es == [] {
    } else {
      StepKeepsEarned(init, s, es[0], deps);
      DoneIsEarned(init, Next(s, es[0], deps), es[1..], deps);
    }
  }

  /**
   * The whole protocol: over every run from rows nobody works on, each attempt of a subtask is dispatched
   * at most once and has at most one result applied, which is that of a dispatched worker, and every row
   * that became done did so by a result of its own attempt.
   */
  lemma EveryRunIsOrderly(init: State, es: seq<Step>, deps: Deps)
    requires Initial(init) && IsRun(init, es, deps)
    ensures var t := After(init, es, deps);
            && Graph.Distinct(t.dispatches)
            && (forall i, j :: 0 <= i < j < |t.applied| ==> t.applied[i].work != t.applied[j].work)
            && (forall a :: a in t.applied ==> a.work in t.dispatches)
            && Earned(init, t)
  {
    RunsKeepConsistent(init, es, deps);
    DoneIsEarned(init, init, es, deps);
    var t := After(init, es, deps);
    assert forall a :: a in t.applied ==> AppliedOk(t, a);
  }

  // --------------------------------------------------------------------
  // The replan write and the attempt bump are two writes
  // --------------------------------------------------------------------

  /** What the replan write leaves: failed subtasks pending, or all of them when none failed. */
  function Replanned(rows: map<Key, Row>): map<Key, Row> {
    map k | k in rows :: if rows[k].status != Done || AllDone(rows) then rows[k].(status := Pending) else rows[k]
  }

  /** After the replan write and before the bump. */
  function ReplanWritten(s: State): State {
    s.(rows := Replanned(s.rows))
  }

  lemma ReplanThenBumpIsRoundStart(rows: map<Key, Row>)
    ensures Reopened(Replanned(rows), false) == Reopened(rows, AllDone(rows))
  {
  }

  predicate OwnsAttempt(s: State, w: Work) {
    w.key in s.rows && w.attempt == s.rows[w.key].attempt
  }

  /** Between the two writes only workers act. */
  predicate OnlyFinishes(es: seq<Step>) {
    forall e :: e in es ==> e.WorkerFinish?
  }

  /** Whatever workers do before the bump, the rows are those of the replan write. */
  ghost predicate WindowIsSafe(s: State, deps: Deps) {
    forall es :: OnlyFinishes(es) && IsRun(ReplanWritten(s), es, deps) ==>
      After(ReplanWritten(s), es, deps).rows == Replanned(s.rows)
  }

  /**
   * Between the two writes a worker's result is applied exactly when its attempt is still the current one,
   * timed out or not; and when it says `done`, the bump keeps that row in the same attempt.
   */
  lemma LateResultInTheWindow(s: State, deps: Deps, w: Work, r: Outcome)
    requires Consistent(s, deps) && w in s.running && r.Outcome? && Terminal(r.status)
    ensures Enabled(ReplanWritten(s), WorkerFinish(w, r), deps)
    ensures var after := Next(ReplanWritten(s), WorkerFinish(w, r), deps).rows;
            && (after != Replanned(s.rows) <==> OwnsAttempt(s, w))
            && (OwnsAttempt(s, w) && r.status == Done ==> Reopened(after, false)[w.key] == Row(Done, w.attempt, r))
  {
    assert RunningOk(s, deps, w);
  }

  lemma {:induction false} OldWorkersChangeNothing(m: State, es: seq<Step>, deps: Deps)
    requires OnlyFinishes(es) && IsRun(m, es, deps) && forall w :: w in m.running ==> !OwnsAttempt(m, w)
    ensures After(m, es, deps).rows == m.rows
    decreases |es|
  {
    if es == [] {
    } else {
      assert es[0] in es && forall e :: e in es[1..] ==> e in es;
      OldWorkersChangeNothing(Next(m, es[0], deps), es[1..], deps);
    }
  }

  /**
   * The two writes act as the one round start of the protocol exactly when no worker of a current attempt
   * is still running at the replan write.
   */
  lemma SplitReplanIsSafeExactly(s: State, deps: Deps)
    requires Consistent(s, deps) && s.awaiting == {}
    ensures WindowIsSafe(s, deps) <==> forall w :: w in s.running ==> !OwnsAttempt(s, w)
    ensures WindowIsSafe(s, deps) ==>
              forall es :: OnlyFinishes(es) && IsRun(ReplanWritten(s), es, deps) ==>
                Reopened(After(ReplanWritten(s), es, deps).rows, false) == Reopened(s.rows, AllDone(s.rows))
  {
    hide Next, Enabled, Consistent, Replanned, Reopened, AllDone;
    ReplanThenBumpIsRoundStart(s.rows);
    ReplanKeepsAttempts(s);
    var m := ReplanWritten(s);
    if forall w :: w in s.running ==> !OwnsAttempt(s, w) {
      forall es | OnlyFinishes(es) && IsRun(m, es, deps) ensures After(m, es, deps).rows == Replanned(s.rows) {
        OldWorkersChangeNothing(m, es, deps);
      }
    } else {
      var w :| w in s.running && OwnsAttempt(s, w);
      var late := WorkerFinish(w, Outcome(Done, ""));
      LateResultInTheWindow(s, deps, w, Outcome(Done, ""));
      EmptyRun(Next(m, late, deps), deps);
      PrependStep(m, late, Next(m, late, deps), [], Next(m, late, deps), deps);
      assert [late] + [] == [late];
      assert OnlyFinishes([late]) && IsRun(m, [late], deps);
    }
  }

  lemma ReplanKeepsAttempts(s: State)
    ensures ReplanWritten(s).running == s.running && ReplanWritten(s).rows == Replanned(s.rows)
    ensures forall w :: OwnsAttempt(ReplanWritten(s), w) <==> OwnsAttempt(s, w)
  {
  }

  function FreshState(k: Key): State {
    State(map[k := Row(Pending, 0, NoOutcome)], {}, {}, {}, [], [])
  }

  /** The one subtask of the first attempt was dispatched, started and timed out; its worker lives on. */
  function TimedOutState(k: Key): State {
    State(map[k := Row(Error, 1, TIMEOUT)], {}, {}, {Work(k, 1)}, [Work(k, 1)], [])
  }

  lemma PrependStep(s: State, e: Step, t: State, es: seq<Step>, u: State, deps: Deps)
    requires Enabled(s, e, deps) && Next(s, e, deps) == t && IsRun(t, es, deps) && After(t, es, deps) == u
    ensures IsRun(s, [e] + es, deps) && After(s, [e] + es, deps) == u
  {
    hide Enabled, Next;
    assert ([e] + es)[1..] == es;
  }

  lemma TimedOutStateIsReached(k: Key)
    ensures Initial(FreshState(k))
    ensures var es := [RoundStart(false), Dispatch(k), WorkerStart(Work(k, 1)), Timeout(k)];
            IsRun(FreshState(k), es, map[]) && After(FreshState(k), es, map[]) == TimedOutState(k)
  {
    hide IsRun, After;
    var w := Work(k, 1);
    var s1 := State(map[k := Row(Pending, 1, NoOutcome)], {}, {}, {}, [], []);
    var s2 := State(s1.rows, {k}, {w}, {}, [w], []);
    var s3 := State(map[k := Row(Running, 1, NoOutcome)], {k}, {}, {w}, [w], []);
    var s4 := TimedOutState(k);
    EmptyRun(s4, map[]);
    PrependStep(s3, Timeout(k), s4, [], s4, map[]);
    PrependStep(s2, WorkerStart(w), s3, [Timeout(k)] + [], s4, map[]);
    PrependStep(s1, Dispatch(k), s2, [WorkerStart(w)] + ([Timeout(k)] + []), s4, map[]);
    PrependStep(FreshState(k), RoundStart(false), s1, [Dispatch(k)] + ([WorkerStart(w)] + ([Timeout(k)] + [])), s4, map[]);
    assert [RoundStart(false)] + ([Dispatch(k)] + ([WorkerStart(w)] + ([Timeout(k)] + [])))
        == [RoundStart(false), Dispatch(k), WorkerStart(w), Timeout(k)];
  }

  lemma EmptyRun(s: State, deps: Deps)
    ensures IsRun(s, [], deps) && After(s, [], deps) == s
  {
  }

  /**
   * The unsafe case is real: in a reachable state a timed-out worker's result, stale before the replan
   * write, is applied after it, and the next round keeps the row as done.
   */
  lemma SplitReplanLetsALateResultIn(k: Key, r: Outcome)
    requires r.Outcome? && r.status == Done
    ensures exists es :: IsRun(FreshState(k), es, map[]) && After(FreshState(k), es, map[]) == TimedOutState(k)
    ensures !WindowIsSafe(TimedOutState(k), map[])
    ensures var s, late := TimedOutState(k), WorkerFinish(Work(k, 1), r);
            && Next(s, late, map[]).rows == s.rows
            && Next(ReplanWritten(s), late, map[]).rows == map[k := Row(Done, 1, r)]
            && Reopened(map[k := Row(Done, 1, r)], false) == map[k := Row(Done, 1, r)]
  {
    hide WindowIsSafe;
    var init, s := FreshState(k), TimedOutState(k);
    TimedOutStateIsReached(k);
    var es := [RoundStart(false), Dispatch(k), WorkerStart(Work(k, 1)), Timeout(k)];
    assert Consistent(init, map[]);
    RunsKeepConsistent(init, es, map[]);
    SplitReplanIsSafeExactly(s, map[]);
    assert Work(k, 1) in s.running && OwnsAttempt(s, Work(k, 1));
  }

  // --------------------------------------------------------------------
  // Resuming is two writes as well, and that is harmless
  // --------------------------------------------------------------------

  /** The rows once the workers that were in flight are taken for lost. */
  function Interrupted(rows: map<Key, Row>): map<Key, Row> {
    map k | k in rows :: if rows[k].status == Running then rows[k].(status := Pending) else rows[k]
  }

  /**
   * A result that arrives between resume's write and the bump is treated as if it had arrived before the
   * resume, and the two writes together are the one step of the protocol.
   */
  lemma SplitResumeIsHarmless(s: State, deps: Deps, w: Work, r: Outcome)
    requires Enabled(s, WorkerFinish(w, r), deps)
    ensures var m := s.(rows := Interrupted(s.rows));
            && Enabled(m, WorkerFinish(w, r), deps)
            && Next(m, WorkerFinish(w, r), deps).rows == Interrupted(Next(s, WorkerFinish(w, r), deps).rows)
    ensures Reopened(Interrupted(s.rows), false) == Reopened(s.rows, false)
  {
    var m := s.(rows := Interrupted(s.rows));
    assert Stale(w.attempt, m.rows[w.key]) <==> Stale(w.attempt, s.rows[w.key]);
  }

  // --------------------------------------------------------------------
  // The code behind the steps, on the table both processes write
  // --------------------------------------------------------------------

  class SubtaskTable {
    var rows: map<Key, Row>

    constructor (rows: map<Key, Row>)
      ensures this.rows == rows
    {
      this.rows := rows;
    }

    /** The worker's first half: it reads its row and marks it running. */
    method StartWorker(k: Key, ghost s: State, ghost deps: Deps, ghost spawned: Work) returns (started: Row)
      requires s.rows == rows && spawned.key == k && Enabled(s, WorkerStart(spawned), deps)
      modifies this
      ensures rows == Next(s, WorkerStart(spawned), deps).rows
      ensures Consistent(s, deps) ==>
                started.attempt == spawned.attempt && spawned in Next(s, WorkerStart(spawned), deps).running
    {
      started := rows[k];
      rows := rows[k := rows[k].(status := Running)];
      assert Consistent(s, deps) ==> SpawnedOk(s, deps, spawned);
    }

    /** The worker's second half: it writes its result unless the row has moved on. */
    method FinishWorker(k: Key, started: Row, r: Outcome, ghost s: State, ghost deps: Deps) returns (applied: bool)
      requires s.rows == rows && Enabled(s, WorkerFinish(Work(k, started.attempt), r), deps)
      modifies this
      ensures rows == Next(s, WorkerFinish(Work(k, started.attempt), r), deps).rows
      ensures applied <==> Next(s, WorkerFinish(Work(k, started.attempt), r), deps).applied != s.applied
    {
      var current := rows[k];
      applied := !(current.attempt != started.attempt
                   || (current.status == Error && current.result.Outcome? && current.result.summary == "worker timeout"));
      if applied {
        rows := rows[k := current.(status := r.status, result := r)];
        assert s.applied + [Applied(Work(k, started.attempt), r)] != s.applied;
      }
    }

    /** One look of the Conductor at a row it waits for: settled, timed out, or still to be awaited. */
    method Poll(k: Key, expired: bool, ghost s: State, ghost deps: Deps) returns (settled: bool)
      requires s.rows == rows && k in rows && k in s.awaiting
      modifies this
      ensures settled <==> expired || Terminal(s.rows[k].status)
      ensures rows ==
        if !settled then s.rows
        else if Terminal(s.rows[k].status) then Next(s, Observe(k), deps).rows
        else Next(s, Timeout(k), deps).rows
    {
      var row := rows[k];
      if row.status in {Done, Error, Blocked} {
        settled := true;
      } else if expired {
        rows := rows[k := row.(status := Error, result := Outcome(Error, "worker timeout"))];
        settled := true;
      } else {
        settled := false;
      }
    }
  }
}
