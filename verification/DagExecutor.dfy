/**
 * One execution of a mission's dependency graph (agent-runner/conductor.py, `execute_dag`): pending
 * subtasks run wave by wave once their dependencies are done, and what can never run is blocked.
 */
module DagExecutor {
  import opened Graph
  import opened SubtaskProtocol

  /** What becomes of a subtask when it is dispatched; the same key is never dispatched twice. */
  datatype Fate = NoWorkspace(reason: string) | Reports(result: Outcome) | TimesOut

  /** The row a dispatched subtask ends with. A worker that reports no final status is timed out. */
  function Settled(row: Row, fate: Fate): Row {
    match fate
    case NoWorkspace(reason) => row.(status := Error, result := Outcome(Error, reason))
    case Reports(r) =>
      if r.Outcome? && Terminal(r.status) then row.(status := r.status, result := r)
      else row.(status := Error, result := TIMEOUT)
    case TimesOut => row.(status := Error, result := TIMEOUT)
  }

  /** The worker reported that its subtask is done. */
  predicate Succeeds(fate: Fate) {
    fate.Reports? && fate.result.Outcome? && fate.result.status == Done
  }

  lemma SettledDone(row: Row, fate: Fate)
    ensures Settled(row, fate).status == Done <==> Succeeds(fate)
  {
  }

  predicate IsDone(rows: map<Key, Row>, k: Key) {
    k in rows && rows[k].status == Done
  }

  predicate IsPending(rows: map<Key, Row>, k: Key) {
    k in rows && rows[k].status == Pending
  }

  function DepsOf(deps: Deps, k: Key): seq<Key> {
    if k in deps then deps[k] else []
  }

  predicate IsReady(rows: map<Key, Row>, deps: Deps, k: Key) {
    IsPending(rows, k) && DepsDone(rows, deps, k)
  }

  // --------------------------------------------------------------------
  // Which subtasks complete: a least fixpoint
  // --------------------------------------------------------------------

  /** Holds the done subtasks, and every pending one that would end done and whose dependencies it holds. */
  ghost predicate Closed(rows: map<Key, Row>, deps: Deps, fates: Key -> Fate, s: set<Key>) {
    && (forall k :: IsDone(rows, k) ==> k in s)
    && (forall k :: IsPending(rows, k) && Succeeds(fates(k)) && (forall d :: d in DepsOf(deps, k) ==> d in s)
          ==> k in s)
  }

  /** The subtask is in every closed set, and so in the least one. */
  ghost predicate Completes(rows: map<Key, Row>, deps: Deps, fates: Key -> Fate, k: Key) {
    forall s :: Closed(rows, deps, fates, s) ==> k in s
  }

  /** A dependency that names no subtask never completes. */
  lemma MissingNeverCompletes(rows: map<Key, Row>, deps: Deps, fates: Key -> Fate, k: Key)
    requires k !in rows
    ensures !Completes(rows, deps, fates, k)
  {
    assert Closed(rows, deps, fates, rows.Keys);
  }

  /** Pending subtasks that depend on one another in a cycle never complete, nor does any of them. */
  lemma CyclesNeverComplete(rows: map<Key, Row>, deps: Deps, fates: Key -> Fate, cycle: set<Key>)
    requires forall k :: k in cycle ==> IsPending(rows, k) && exists d :: d in DepsOf(deps, k) && d in cycle
    ensures forall k :: k in cycle ==> !Completes(rows, deps, fates, k)
  {
    assert Closed(rows, deps, fates, rows.Keys - cycle);
  }

  // --------------------------------------------------------------------
  // The wave invariant
  // --------------------------------------------------------------------

  /** Dependency `d` of the `i`-th started subtask was done at the outset or ended done before it started. */
  ghost predicate DoneBefore(init: map<Key, Row>, fates: Key -> Fate, started: seq<Key>, i: nat, d: Key) {
    || IsDone(init, d)
    || exists j :: 0 <= j < i && j < |started| && started[j] == d && d in init && Succeeds(fates(d))
  }

  ghost predicate Progress(init: map<Key, Row>, rows: map<Key, Row>, deps: Deps, fates: Key -> Fate, started: seq<Key>) {
    && rows.Keys == init.Keys
    && Distinct(started)
    && (forall k :: k in started ==> IsPending(init, k) && rows[k] == Settled(init[k], fates(k)))
    && (forall k :: k in init && k !in started ==> rows[k] == init[k])
    && (forall i, d :: 0 <= i < |started| && d in DepsOf(deps, started[i]) ==> DoneBefore(init, fates, started, i, d))
  }

  /** Everything done so far is in every closed set. */
  ghost predicate Sound(init: map<Key, Row>, rows: map<Key, Row>, deps: Deps, fates: Key -> Fate) {
    forall k :: IsDone(rows, k) ==> Completes(init, deps, fates, k)
  }

  /** `after` is `before` with the subtasks of a wave settled. */
  ghost predicate WaveSettled(before: map<Key, Row>, after: map<Key, Row>, fates: Key -> Fate, wave: seq<Key>) {
    && after.Keys == before.Keys
    && (forall k :: k in wave ==> k in before && after[k] == Settled(before[k], fates(k)))
    && (forall k :: k in before && k !in wave ==> after[k] == before[k])
  }

  ghost predicate IsWave(rows: map<Key, Row>, deps: Deps, wave: seq<Key>) {
    Distinct(wave) && forall k :: k in wave <==> IsReady(rows, deps, k)
  }

  lemma SettledIsFinal(row: Row, fate: Fate)
    ensures Terminal(Settled(row, fate).status)
  {
  }

  lemma DoneWasDoneBefore(init: map<Key, Row>, rows: map<Key, Row>, deps: Deps, fates: Key -> Fate, started: seq<Key>, i: nat, d: Key)
    requires Progress(init, rows, deps, fates, started) && IsDone(rows, d) && |started| <= i
    ensures DoneBefore(init, fates, started, i, d)
  {
    hide Settled;
    if d in started {
      var j :| 0 <= j < |started| && started[j] == d;
      SettledDone(init[d], fates(d));
    }
  }

  lemma WaveProgresses(
    init: map<Key, Row>, before: map<Key, Row>, after: map<Key, Row>, deps: Deps, fates: Key -> Fate, started: seq<Key>, wave: seq<Key>)
    requires Progress(init, before, deps, fates, started) && IsWave(before, deps, wave) && WaveSettled(before, after, fates, wave)
    ensures Progress(init, after, deps, fates, started + wave)
  {
    hide Settled, DoneBefore;
    forall k | k in wave ensures k !in started && IsPending(init, k) {
      assert IsReady(before, deps, k);
      if k in started {
        SettledIsFinal(init[k], fates(k));
      }
    }
    var all := started + wave;
    DistinctConcat(started, wave);
    assert forall k :: k in all <==> k in started || k in wave;
    forall i, d | 0 <= i < |all| && d in DepsOf(deps, all[i]) ensures DoneBefore(init, fates, all, i, d) {
      if i < |started| {
        assert DoneBefore(init, fates, started, i, d);
        DoneBeforeExtends(init, fates, started, wave, i, d);
      } else {
        assert all[i] == wave[i - |started|];
        assert IsReady(before, deps, all[i]);
        DoneWasDoneBefore(init, before, deps, fates, started, i, d);
        DoneBeforeExtends(init, fates, started, wave, i, d);
      }
    }
  }

  lemma DistinctConcat(a: seq<Key>, b: seq<Key>)
    requires Distinct(a) && Distinct(b) && forall k :: k in b ==> k !in a
    ensures Distinct(a + b)
  {
    var c := a + b;
    forall i, j | 0 <= i < j < |c| ensures c[i] != c[j] {
      if j >= |a| {
        assert c[j] == b[j - |a|] && c[j] in b;
        assert i < |a| ==> c[i] in a;
      }
    }
  }

  lemma DoneBeforeExtends(init: map<Key, Row>, fates: Key -> Fate, started: seq<Key>, wave: seq<Key>, i: nat, d: Key)
    requires DoneBefore(init, fates, started, i, d)
    ensures DoneBefore(init, fates, started + wave, i, d)
  {
    hide Settled;
    if !IsDone(init, d) {
      var j :| 0 <= j < i && j < |started| && started[j] == d && d in init && Succeeds(fates(d));
      assert (started + wave)[j] == d;
    }
  }

  lemma WaveIsSound(
    init: map<Key, Row>, before: map<Key, Row>, after: map<Key, Row>, deps: Deps, fates: Key -> Fate, started: seq<Key>, wave: seq<Key>)
    requires Progress(init, before, deps, fates, started) && IsWave(before, deps, wave) && WaveSettled(before, after, fates, wave)
    requires Sound(init, before, deps, fates)
    ensures Sound(init, after, deps, fates)
  {
    hide Settled, DoneBefore;
    forall k, s | IsDone(after, k) && Closed(init, deps, fates, s) ensures k in s {
      if k in wave {
        assert IsReady(before, deps, k);
        SettledDone(init[k], fates(k));
        if k in started {
          SettledIsFinal(init[k], fates(k));
        }
        forall d | d in DepsOf(deps, k) ensures d in s {
          assert IsDone(before, d);
          assert Completes(init, deps, fates, d);
        }
      } else {
        assert IsDone(before, k) && Completes(init, deps, fates, k);
      }
    }
  }

  /** When no wave is left, what is done is exactly the least fixpoint. */
  lemma NothingReadyMeansComplete(
    init: map<Key, Row>, rows: map<Key, Row>, deps: Deps, fates: Key -> Fate, started: seq<Key>)
    requires Progress(init, rows, deps, fates, started) && Sound(init, rows, deps, fates)
    requires forall k :: !IsReady(rows, deps, k)
    ensures forall k :: IsDone(rows, k) <==> Completes(init, deps, fates, k)
    ensures forall k :: IsPending(init, k) ==> (k in started <==> forall d :: d in DepsOf(deps, k) ==> Completes(init, deps, fates, d))
  {
    hide Settled, DoneBefore;
    var done := set k | k in rows && rows[k].status == Done;
    forall k | IsPending(init, k) && forall d :: d in DepsOf(deps, k) ==> d in done
      ensures k in started
    {
      assert DepsDone(rows, deps, k) by {
        assert forall d :: d in DepsOf(deps, k) ==> d in rows && rows[d].status == Done;
      }
      assert !IsReady(rows, deps, k);
    }
    forall k | k in started ensures rows[k].status == Done <==> Succeeds(fates(k)) {
      SettledDone(init[k], fates(k));
    }
    assert Closed(init, deps, fates, done);
    forall k ensures IsDone(rows, k) <==> Completes(init, deps, fates, k) {
      if Completes(init, deps, fates, k) {
        assert k in done;
      }
    }
    forall k, d | k in started && d in DepsOf(deps, k) ensures Completes(init, deps, fates, d) {
      var i :| 0 <= i < |started| && started[i] == k;
      assert DoneBefore(init, fates, started, i, d);
      StartedDone(init, rows, deps, fates, started, i, d);
    }
  }

  lemma StartedDone(
    init: map<Key, Row>, rows: map<Key, Row>, deps: Deps, fates: Key -> Fate, started: seq<Key>, i: nat, d: Key)
    requires Progress(init, rows, deps, fates, started) && DoneBefore(init, fates, started, i, d)
    ensures IsDone(rows, d)
  {
    hide Settled;
    if d in started {
      SettledDone(init[d], fates(d));
    }
  }

  // --------------------------------------------------------------------
  // The executor
  // --------------------------------------------------------------------

  function PendingSet(rows: map<Key, Row>): set<Key> {
    set k | k in rows && rows[k].status == Pending
  }

  /** The keys of `order[i..]` that are ready, in order. */
  function ReadyFrom(order: seq<Key>, i: nat, rows: map<Key, Row>, deps: Deps): seq<Key>
    decreases |order| - i
  {
    if i >= |order| then []
    else (if IsReady(rows, deps, order[i]) then [order[i]] else []) + ReadyFrom(order, i + 1, rows, deps)
  }

  lemma NothingIsDistinct()
    ensures Distinct<Key>([])
  {
  }

  lemma DistinctCons(k: Key, s: seq<Key>)
    requires Distinct(s)
    ensures k !in s ==> Distinct([k] + s)
  {
  }

  lemma {:induction false} ReadyFromIsWave(order: seq<Key>, i: nat, rows: map<Key, Row>, deps: Deps)
    requires Distinct(order) && i <= |order|
    ensures var w := ReadyFrom(order, i, rows, deps);
            && Distinct(w)
            && forall k :: k in w <==> k in order[i..] && IsReady(rows, deps, k)
    decreases |order| - i
  {
    hide IsReady, Distinct;
    if i == |order| {
      NothingIsDistinct();
    } else {
      ReadyFromIsWave(order, i + 1, rows, deps);
      DistinctAt(order, i);
      assert order[i..] == [order[i]] + order[i + 1..];
      assert order[i] !in order[i + 1..];
      var rest := ReadyFrom(order, i + 1, rows, deps);
      assert [] + rest == rest;
      DistinctCons(order[i], rest);
    }
  }

  lemma WaveShrinksPending(before: map<Key, Row>, after: map<Key, Row>, deps: Deps, fates: Key -> Fate, wave: seq<Key>)
    requires WaveSettled(before, after, fates, wave) && IsWave(before, deps, wave) && wave != []
    ensures |PendingSet(after)| < |PendingSet(before)|
  {
    forall k | k in PendingSet(after) ensures k in PendingSet(before) && k != wave[0] {
      if k in wave {
        SettledIsFinal(before[k], fates(k));
      }
      assert wave[0] in wave;
      SettledIsFinal(before[wave[0]], fates(wave[0]));
    }
    assert wave[0] in wave && IsReady(before, deps, wave[0]);
    assert PendingSet(after) <= PendingSet(before) - {wave[0]};
    SubsetIsSmaller(PendingSet(after), PendingSet(before) - {wave[0]});
  }

  lemma {:induction false} SubsetIsSmaller(a: set<Key>, b: set<Key>)
    requires a <= b
    ensures |a| <= |b|
  {
    if a == {} {
    } else {
      var x :| x in a;
      SubsetIsSmaller(a - {x}, b - {x});
    }
  }

  class Mission {
    const order: seq<Key>
    const deps: Deps
    var rows: map<Key, Row>

    ghost predicate Valid()
      reads this
    {
      Distinct(order) && forall k :: k in rows <==> k in order
    }

    constructor (order: seq<Key>, deps: Deps, rows: map<Key, Row>)
      requires Distinct(order) && forall k :: k in rows <==> k in order
      ensures Valid() && this.order == order && this.deps == deps && this.rows == rows
    {
      this.order, this.deps, this.rows := order, deps, rows;
    }

    /** Dispatches a wave, then waits until each of its subtasks has settled. */
    method RunWave(wave: seq<Key>, fates: Key -> Fate)
      requires Valid() && Distinct(wave) && forall k :: k in wave ==> k in rows && rows[k].status == Pending
      modifies this
      ensures Valid() && WaveSettled(old(rows), rows, fates, wave)
      ensures forall k :: k in wave ==> (rows[k].status == Done <==> Succeeds(fates(k)))
    {
      hide Settled, Distinct;
      ghost var before := rows;
      var i := 0;
      while i < |wave|
        invariant i <= |wave| && rows.Keys == before.Keys
        invariant forall j :: 0 <= j < i ==> rows[wave[j]] == Dispatched(before[wave[j]], fates(wave[j]))
        invariant forall j :: i <= j < |wave| ==> rows[wave[j]] == before[wave[j]]
        invariant forall k :: k in before && k !in wave ==> rows[k] == before[k]
      {
        var k := wave[i];
        DistinctAt(wave, i);
        rows := rows[k := Dispatched(rows[k], fates(k))];
        i := i + 1;
      }
      i := 0;
      while i < |wave|
        invariant i <= |wave| && rows.Keys == before.Keys
        invariant forall j :: 0 <= j < i ==> rows[wave[j]] == Settled(before[wave[j]], fates(wave[j]))
        invariant forall j :: i <= j < |wave| ==> rows[wave[j]] == Dispatched(before[wave[j]], fates(wave[j]))
        invariant forall k :: k in before && k !in wave ==> rows[k] == before[k]
      {
        var k := wave[i];
        DistinctAt(wave, i);
        DispatchedSettles(before[k], fates(k));
        rows := rows[k := Awaited(rows[k], fates(k))];
        i := i + 1;
      }
      forall k | k in wave ensures rows[k].status == Done <==> Succeeds(fates(k)) {
        SettledDone(before[k], fates(k));
      }
    }

    /**
     * Runs the whole graph. Afterwards the done subtasks are exactly the least fixpoint; every pending
     * subtask whose dependencies complete was started once, after them, and holds what its fate gives;
     * every other pending one is blocked; nothing else changed. There are at most as many waves as subtasks.
     */
    method ExecuteDag(fates: Key -> Fate) returns (started: seq<Key>, waves: nat)
      requires Valid()
      modifies this
      ensures Valid() && waves <= |order|
      ensures Distinct(started) && ExecutedAs(old(rows), rows, deps, fates)
      ensures forall k :: k in started <==>
                IsPending(old(rows), k) && forall d :: d in DepsOf(deps, k) ==> Completes(old(rows), deps, fates, d)
      ensures forall i, d :: 0 <= i < |started| && d in DepsOf(deps, started[i]) ==> DoneBefore(old(rows), fates, started, i, d)
      ensures forall k :: IsDone(rows, k) <==> Completes(old(rows), deps, fates, k)
      ensures forall k :: IsDone(rows, k) <==> IsDone(old(rows), k) || (k in started && Succeeds(fates(k)))
      ensures forall k :: k in started ==>
                rows[k] ==
                match fates(k) {
                  case NoWorkspace(reason) => Row(Error, old(rows)[k].attempt, Outcome(Error, reason))
                  case Reports(r) =>
                    if r.Outcome? && r.status in {Done, Error, Status.Blocked} then Row(r.status, old(rows)[k].attempt, r)
                    else Row(Error, old(rows)[k].attempt, Outcome(Error, "worker timeout"))
                  case TimesOut => Row(Error, old(rows)[k].attempt, Outcome(Error, "worker timeout"))
                }
      ensures forall k :: k in rows && k !in started ==>
                rows[k] == if IsPending(old(rows), k) then old(rows)[k].(status := Blocked) else old(rows)[k]
      ensures RunsAs(old(rows), rows, deps, fates, started)
    {
      hide Settled, DoneBefore, Completes, IsReady, Progress, Sound, PendingSet;
      ghost var init := rows;
      started, waves := [], 0;
      StartsSound(init, deps, fates);
      PendingAtMost(order, rows);
      while true
        invariant Valid() && Progress(init, rows, deps, fates, started) && Sound(init, rows, deps, fates)
        invariant waves + |PendingSet(rows)| <= |order|
        decreases |PendingSet(rows)|
      {
        var ready := ReadyFrom(order, 0, rows, deps);
        ReadyIsWave(order, rows, deps);
        if ready == [] {
          break;
        }
        ghost var before := rows;
        RunWave(ready, fates);
        WaveProgresses(init, before, rows, deps, fates, started, ready);
        WaveIsSound(init, before, rows, deps, fates, started, ready);
        WaveShrinksPending(before, rows, deps, fates, ready);
        started, waves := started + ready, waves + 1;
      }
      NothingReadyMeansComplete(init, rows, deps, fates, started);
      ghost var last := rows;
      BlockPending();
      BlockingEnds(init, last, rows, deps, fates, started);
      StartedSays(init, rows, fates, started);
      ExecutionIsARun(init, last, rows, deps, fates, started);
    }

    /** Anything still pending has dependencies that cannot be met. */
    method BlockPending()
      requires Valid()
      modifies this
      ensures Valid() && Blocks(old(rows), rows)
    {
      ghost var before := rows;
      var i := 0;
      while i < |order|
        invariant i <= |order| && rows.Keys == before.Keys
        invariant forall j :: 0 <= j < i ==> rows[order[j]] == BlockedIfPending(before[order[j]])
        invariant forall j :: i <= j < |order| ==> rows[order[j]] == before[order[j]]
      {
        var k := order[i];
        if rows[k].status == Pending {
          rows := rows[k := rows[k].(status := Blocked)];
        }
        i := i + 1;
      }
    }
  }

  /** A subtask whose workspace cannot be made fails at once; any other is running once dispatched. */
  function Dispatched(row: Row, fate: Fate): Row {
    match fate
    case NoWorkspace(reason) => row.(status := Error, result := Outcome(Error, reason))
    case _ => row.(status := Running)
  }

  /** What waiting for a dispatched subtask leaves in its row. */
  function Awaited(row: Row, fate: Fate): Row {
    if Terminal(row.status) then row
    else
      match fate
      case Reports(r) =>
        if r.Outcome? && Terminal(r.status) then row.(status := r.status, result := r)
        else row.(status := Error, result := TIMEOUT)
      case _ => row.(status := Error, result := TIMEOUT)
  }

  lemma DispatchedSettles(row: Row, fate: Fate)
    ensures Awaited(Dispatched(row, fate), fate) == Settled(row, fate)
  {
  }

  lemma DistinctAt(s: seq<Key>, i: nat)
    requires Distinct(s) && i < |s|
    ensures forall j :: 0 <= j < |s| && j != i ==> s[j] != s[i]
  {
  }

  function BlockedIfPending(row: Row): Row {
    if row.status == Pending then row.(status := Blocked) else row
  }

  ghost predicate Blocks(before: map<Key, Row>, after: map<Key, Row>) {
    after.Keys == before.Keys && forall k :: k in before ==> after[k] == BlockedIfPending(before[k])
  }

  lemma StartedSays(init: map<Key, Row>, rows: map<Key, Row>, fates: Key -> Fate, started: seq<Key>)
    requires forall k :: k in started ==> k in init && k in rows && rows[k] == Settled(init[k], fates(k))
    ensures forall k :: k in started ==>
              rows[k] ==
              match fates(k) {
                case NoWorkspace(reason) => Row(Error, init[k].attempt, Outcome(Error, reason))
                case Reports(r) =>
                  if r.Outcome? && r.status in {Done, Error, Blocked} then Row(r.status, init[k].attempt, r)
                  else Row(Error, init[k].attempt, Outcome(Error, "worker timeout"))
                case TimesOut => Row(Error, init[k].attempt, Outcome(Error, "worker timeout"))
              }
    ensures forall k :: k in started ==> (rows[k].status == Done <==> Succeeds(fates(k)))
  {
    forall k | k in started ensures rows[k].status == Done <==> Succeeds(fates(k)) {
      SettledDone(init[k], fates(k));
    }
  }

  lemma StartsSound(init: map<Key, Row>, deps: Deps, fates: Key -> Fate)
    ensures Progress(init, init, deps, fates, []) && Sound(init, init, deps, fates)
  {
  }

  lemma PendingAtMost(order: seq<Key>, rows: map<Key, Row>)
    requires forall k :: k in rows <==> k in order
    ensures |PendingSet(rows)| <= |order|
  {
    var keys := set k | k in order;
    KeysAtMost(order);
    assert PendingSet(rows) <= keys;
    SubsetIsSmaller(PendingSet(rows), keys);
  }

  lemma {:induction false} KeysAtMost(order: seq<Key>)
    ensures |set k | k in order| <= |order|
  {
    if order == [] {
    } else {
      KeysAtMost(order[1..]);
      assert (set k | k in order) == (set k | k in order[1..]) + {order[0]};
    }
  }

  lemma ReadyIsWave(order: seq<Key>, rows: map<Key, Row>, deps: Deps)
    requires Distinct(order) && forall k :: k in rows <==> k in order
    ensures var w := ReadyFrom(order, 0, rows, deps);
            && IsWave(rows, deps, w)
            && (forall k :: k in w ==> k in rows && rows[k].status == Pending)
            && (w == [] ==> forall k :: !IsReady(rows, deps, k))
  {
    ReadyFromIsWave(order, 0, rows, deps);
    assert order[0..] == order;
  }

  lemma BlockingEnds(
    init: map<Key, Row>, last: map<Key, Row>, rows: map<Key, Row>, deps: Deps, fates: Key -> Fate, started: seq<Key>)
    requires Progress(init, last, deps, fates, started) && Blocks(last, rows)
    ensures forall k :: k in rows ==>
              && k in init
              && rows[k] == (
                  if k in started then Settled(init[k], fates(k))
                  else if init[k].status == Pending then init[k].(status := Blocked)
                  else init[k])
    ensures forall k :: IsDone(rows, k) <==> IsDone(last, k)
    ensures Distinct(started) && forall k :: k in started ==> IsPending(init, k)
    ensures forall i, d :: 0 <= i < |started| && d in DepsOf(deps, started[i]) ==> DoneBefore(init, fates, started, i, d)
  {
    hide DoneBefore, Settled;
    forall k | k in started ensures Terminal(last[k].status) {
      SettledIsFinal(init[k], fates(k));
    }
  }

  // --------------------------------------------------------------------
  // The executor is a run of the protocol
  // --------------------------------------------------------------------

  predicate Reported(fate: Fate) {
    fate.Reports? && fate.result.Outcome? && Terminal(fate.result.status)
  }

  /** The steps a subtask goes through when it meets its fate. */
  function StepsOf(k: Key, attempt: nat, fate: Fate): seq<Step> {
    var w := Work(k, attempt);
    if fate.NoWorkspace? then [DispatchFail(k, fate.reason), Observe(k)]
    else if Reported(fate) then [Dispatch(k), WorkerStart(w), WorkerFinish(w, fate.result), Observe(k)]
    else [Dispatch(k), Timeout(k)]
  }

  /** The steps of the started subtasks, one after the other. */
  function RunOf(init: map<Key, Row>, fates: Key -> Fate, started: seq<Key>): seq<Step>
    requires forall k :: k in started ==> k in init
  {
    if started == [] then []
    else
      var n := |started| - 1;
      RunOf(init, fates, started[..n]) + StepsOf(started[n], init[started[n]].attempt, fates(started[n]))
  }

  /** Nothing of the subtask is in flight once it has met its fate, and its row alone has moved. */
  lemma FateIsARun(s: State, deps: Deps, k: Key, fate: Fate)
    requires Consistent(s, deps) && IsReady(s.rows, deps, k) && k !in s.awaiting
    ensures var es := StepsOf(k, s.rows[k].attempt, fate);
            && IsRun(s, es, deps)
            && (forall e :: e in es ==> WithinRound(e))
            && After(s, es, deps).rows == s.rows[k := Settled(s.rows[k], fate)]
            && After(s, es, deps).awaiting == s.awaiting
  {
    if fate.NoWorkspace? {
      FailedDispatchIsARun(s, deps, k, fate.reason);
    } else if Reported(fate) {
      ReportIsARun(s, deps, k, fate.result);
    } else {
      TimeoutIsARun(s, deps, k);
    }
  }

  lemma FailedDispatchIsARun(s: State, deps: Deps, k: Key, reason: string)
    requires IsReady(s.rows, deps, k) && k !in s.awaiting
    ensures var es := [DispatchFail(k, reason), Observe(k)];
            && IsRun(s, es, deps)
            && After(s, es, deps) == s.(rows := s.rows[k := s.rows[k].(status := Error, result := Outcome(Error, reason))])
  {
    hide IsRun, After;
    var s1 := Next(s, DispatchFail(k, reason), deps);
    var s2 := Next(s1, Observe(k), deps);
    assert s2.awaiting == s.awaiting;
    EmptyRun(s2, deps);
    PrependStep(s1, Observe(k), s2, [], s2, deps);
    PrependStep(s, DispatchFail(k, reason), s1, [Observe(k)] + [], s2, deps);
    assert [DispatchFail(k, reason)] + ([Observe(k)] + []) == [DispatchFail(k, reason), Observe(k)];
  }

  lemma TimeoutIsARun(s: State, deps: Deps, k: Key)
    requires Consistent(s, deps) && IsReady(s.rows, deps, k) && k !in s.awaiting
    ensures var es := [Dispatch(k), Timeout(k)];
            && IsRun(s, es, deps)
            && After(s, es, deps).rows == s.rows[k := s.rows[k].(status := Error, result := TIMEOUT)]
            && After(s, es, deps).awaiting == s.awaiting
  {
    hide IsRun, After, Consistent;
    var s1 := Next(s, Dispatch(k), deps);
    var s2 := Next(s1, Timeout(k), deps);
    assert s2.awaiting == s.awaiting;
    EmptyRun(s2, deps);
    PrependStep(s1, Timeout(k), s2, [], s2, deps);
    PrependStep(s, Dispatch(k), s1, [Timeout(k)] + [], s2, deps);
    assert [Dispatch(k)] + ([Timeout(k)] + []) == [Dispatch(k), Timeout(k)];
  }

  lemma ReportIsARun(s: State, deps: Deps, k: Key, r: Outcome)
    requires Consistent(s, deps) && IsReady(s.rows, deps, k) && k !in s.awaiting && r.Outcome? && Terminal(r.status)
    ensures var w := Work(k, s.rows[k].attempt);
            var es := [Dispatch(k), WorkerStart(w), WorkerFinish(w, r), Observe(k)];
            && IsRun(s, es, deps)
            && After(s, es, deps).rows == s.rows[k := s.rows[k].(status := r.status, result := r)]
            && After(s, es, deps).awaiting == s.awaiting
  {
    hide IsRun, After, Consistent;
    var w := Work(k, s.rows[k].attempt);
    var s1 := Next(s, Dispatch(k), deps);
    var s2 := Next(s1, WorkerStart(w), deps);
    var s3 := Next(s2, WorkerFinish(w, r), deps);
    var s4 := Next(s3, Observe(k), deps);
    assert s4.awaiting == s.awaiting;
    EmptyRun(s4, deps);
    PrependStep(s3, Observe(k), s4, [], s4, deps);
    PrependStep(s2, WorkerFinish(w, r), s3, [Observe(k)] + [], s4, deps);
    PrependStep(s1, WorkerStart(w), s2, [WorkerFinish(w, r)] + ([Observe(k)] + []), s4, deps);
    PrependStep(s, Dispatch(k), s1, [WorkerStart(w)] + ([WorkerFinish(w, r)] + ([Observe(k)] + [])), s4, deps);
    assert [Dispatch(k)] + ([WorkerStart(w)] + ([WorkerFinish(w, r)] + ([Observe(k)] + [])))
        == [Dispatch(k), WorkerStart(w), WorkerFinish(w, r), Observe(k)];
  }

  lemma {:induction false} RunsConcat(s: State, es: seq<Step>, more: seq<Step>, deps: Deps)
    requires IsRun(s, es, deps) && IsRun(After(s, es, deps), more, deps)
    ensures IsRun(s, es + more, deps) && After(s, es + more, deps) == After(After(s, es, deps), more, deps)
    decreases |es|
  {
    hide Enabled, Next;
    if es == [] {
      assert es + more == more;
    } else {
      assert (es + more)[0] == es[0] && (es + more)[1..] == es[1..] + more;
      RunsConcat(Next(s, es[0], deps), es[1..], more, deps);
    }
  }

  /** The steps lead to a state of rest with these rows. */
  ghost predicate RunReaches(s: State, es: seq<Step>, last: map<Key, Row>, deps: Deps) {
    && IsRun(s, es, deps)
    && (forall e :: e in es ==> WithinRound(e))
    && After(s, es, deps).rows == last
    && After(s, es, deps).awaiting == {}
  }

  /**
   * From every state that opens a round on the rows `init`, the steps of the started subtasks are a run of
   * the protocol, and blocking the rest after them leaves `rows`.
   */
  ghost predicate RunsAs(init: map<Key, Row>, rows: map<Key, Row>, deps: Deps, fates: Key -> Fate, started: seq<Key>) {
    && (forall k :: k in started ==> k in init)
    && forall s :: RoundOpen(s, deps) && s.rows == init ==>
         var es := RunOf(init, fates, started) + [BlockRest];
         && IsRun(s, es, deps)
         && After(s, es, deps).rows == rows
         && After(s, es, deps).awaiting == {}
  }

  lemma DoneBeforePrefix(init: map<Key, Row>, fates: Key -> Fate, started: seq<Key>, n: nat, i: nat, d: Key)
    requires DoneBefore(init, fates, started, i, d) && i <= n <= |started|
    ensures DoneBefore(init, fates, started[..n], i, d)
  {
    if !IsDone(init, d) {
      var j :| 0 <= j < i && j < |started| && started[j] == d && d in init && Succeeds(fates(d));
      assert started[..n][j] == d;
    }
  }

  /** Without its last subtask the progress is still one, and that subtask is ready there. */
  lemma ProgressBeforeLast(init: map<Key, Row>, last: map<Key, Row>, deps: Deps, fates: Key -> Fate, started: seq<Key>)
    requires Progress(init, last, deps, fates, started) && started != []
    ensures var n := |started| - 1;
            var k := started[n];
            && k in init
            && Progress(init, last[k := init[k]], deps, fates, started[..n])
            && IsReady(last[k := init[k]], deps, k)
            && last == last[k := init[k]][k := Settled(init[k], fates(k))]
  {
    hide Settled, DoneBefore, DepsDone;
    var n := |started| - 1;
    var k, before := started[n], started[..n];
    assert k in started;
    var prev := last[k := init[k]];
    assert started == before + [k];
    DistinctAt(started, n);
    forall i, d | 0 <= i < n && d in DepsOf(deps, before[i]) ensures DoneBefore(init, fates, before, i, d) {
      assert before[i] == started[i];
      DoneBeforePrefix(init, fates, started, n, i, d);
    }
    assert Progress(init, prev, deps, fates, before);
    forall d | d in DepsOf(deps, k) ensures IsDone(prev, d) {
      DoneBeforePrefix(init, fates, started, n, n, d);
      StartedDone(init, prev, deps, fates, before, n, d);
    }
    DepsDoneMeans(prev, deps, k);
  }

  lemma {:induction false} StartedRun(
    init: map<Key, Row>, last: map<Key, Row>, s: State, deps: Deps, fates: Key -> Fate, started: seq<Key>)
    requires RoundOpen(s, deps) && s.rows == init && Progress(init, last, deps, fates, started)
    requires forall k :: k in started ==> k in init
    ensures RunReaches(s, RunOf(init, fates, started), last, deps)
    decreases |started|
  {
    hide Consistent, Settled, IsRun, After, IsReady, StepsOf, Progress, WithinRound;
    if started == [] {
      NothingStarted(init, last, deps, fates);
      EmptyRun(s, deps);
    } else {
      var n := |started| - 1;
      var k := started[n];
      assert k in started && forall x :: x in started[..n] ==> x in started;
      ProgressBeforeLast(init, last, deps, fates, started);
      var prev := last[k := init[k]];
      StartedRun(init, prev, s, deps, fates, started[..n]);
      var es := RunOf(init, fates, started[..n]);
      var u := After(s, es, deps);
      RunsKeepConsistent(s, es, deps);
      FateIsARun(u, deps, k, fates(k));
      RunsConcat(s, es, StepsOf(k, init[k].attempt, fates(k)), deps);
    }
  }

  lemma NothingStarted(init: map<Key, Row>, last: map<Key, Row>, deps: Deps, fates: Key -> Fate)
    requires Progress(init, last, deps, fates, [])
    ensures last == init
  {
  }

  lemma ExecutionIsARun(
    init: map<Key, Row>, last: map<Key, Row>, rows: map<Key, Row>, deps: Deps, fates: Key -> Fate, started: seq<Key>)
    requires Progress(init, last, deps, fates, started) && Blocks(last, rows)
    ensures RunsAs(init, rows, deps, fates, started)
  {
    hide Settled, RoundOpen, IsRun, After, WithinRound, DoneBefore;
    assert forall k :: k in started ==> k in init;
    forall s | RoundOpen(s, deps) && s.rows == init
      ensures var es := RunOf(init, fates, started) + [BlockRest];
              IsRun(s, es, deps) && After(s, es, deps).rows == rows && After(s, es, deps).awaiting == {}
    {
      StartedRun(init, last, s, deps, fates, started);
      var es := RunOf(init, fates, started);
      var t := After(s, es, deps);
      var u := Next(t, BlockRest, deps);
      EmptyRun(u, deps);
      PrependStep(t, BlockRest, u, [], u, deps);
      assert [BlockRest] + [] == [BlockRest];
      RunsConcat(s, es, [BlockRest], deps);
      assert u.rows == rows;
    }
  }

  // --------------------------------------------------------------------
  // Every interleaving of a round ends as the executor says
  // --------------------------------------------------------------------

  ghost predicate DepsComplete(init: map<Key, Row>, deps: Deps, fates: Key -> Fate, k: Key) {
    forall d :: d in DepsOf(deps, k) ==> Completes(init, deps, fates, d)
  }

  /** What an execution makes of the rows, given the fate of each subtask it dispatches. */
  ghost predicate ExecutedAs(init: map<Key, Row>, rows: map<Key, Row>, deps: Deps, fates: Key -> Fate) {
    && rows.Keys == init.Keys
    && (forall k :: IsDone(rows, k) <==> Completes(init, deps, fates, k))
    && forall k :: k in init ==>
         rows[k] == (
           if !IsPending(init, k) then init[k]
           else if DepsComplete(init, deps, fates, k) then Settled(init[k], fates(k))
           else init[k].(status := Blocked))
  }

  /** The steps of one round between its start and the blocking of the rest. */
  predicate WithinRound(e: Step) {
    !e.RoundStart? && !e.Resume? && !e.BlockRest?
  }

  /** A round has been opened and nothing dispatched yet; workers of earlier attempts may still run. */
  ghost predicate RoundOpen(s: State, deps: Deps) {
    && Consistent(s, deps)
    && s.awaiting == {} && s.spawned == {}
    && forall k :: k in s.rows ==> s.rows[k].status in {Pending, Done}
  }

  lemma RoundStartOpens(s: State, redoAll: bool, deps: Deps)
    requires Consistent(s, deps) && Enabled(s, RoundStart(redoAll), deps)
    ensures RoundOpen(Next(s, RoundStart(redoAll), deps), deps)
  {
    StepKeepsConsistent(s, RoundStart(redoAll), deps);
    assert forall w :: w in s.spawned ==> SpawnedOk(s, deps, w);
  }

  /** How far a row may have come in the round. */
  ghost predicate RowInRound(was: Row, s: State, deps: Deps, k: Key)
    requires k in s.rows
  {
    var row := s.rows[k];
    && row.attempt == was.attempt
    && was.status in {Pending, Done}
    && (was.status == Done || row.status == Pending ==> row == was)
    && (row.status == Running ==> k in s.awaiting)
    && (was.status == Pending && Terminal(row.status) ==> row.result.Outcome? && row.result.status == row.status)
    && (was.status == Pending && (row.status != Pending || k in s.awaiting) ==> DepsDone(s.rows, deps, k))
  }

  ghost predicate InRound(init: map<Key, Row>, s: State, deps: Deps) {
    && Consistent(s, deps)
    && s.rows.Keys == init.Keys
    && (forall k :: k in init ==> RowInRound(init[k], s, deps, k))
    && s.awaiting <= init.Keys
  }

  lemma StepStaysInRound(init: map<Key, Row>, s: State, e: Step, deps: Deps)
    requires InRound(init, s, deps) && Enabled(s, e, deps) && WithinRound(e)
    ensures InRound(init, Next(s, e, deps), deps)
  {
    hide Consistent;
    var t := Next(s, e, deps);
    StepKeepsConsistent(s, e, deps);
    StepMovesRows(s, e, deps);
    DoneStays(init, s, e, deps);
    forall k | k in init ensures RowInRound(init[k], t, deps, k) {
      assert RowInRound(init[k], s, deps, k);
      assert RowMoves(s.rows[k], t.rows[k]);
      if DepsDone(s.rows, deps, k) {
        assert DepsDone(t.rows, deps, k);
      }
      WorkersDepsDone(s, e, deps);
    }
  }

  lemma DoneStays(init: map<Key, Row>, s: State, e: Step, deps: Deps)
    requires Consistent(s, deps) && Enabled(s, e, deps) && WithinRound(e)
    ensures var t := Next(s, e, deps);
            && t.rows.Keys == s.rows.Keys
            && (forall k :: k in s.rows ==> t.rows[k].attempt == s.rows[k].attempt)
            && (forall k :: IsDone(s.rows, k) ==> IsDone(t.rows, k))
  {
    hide Consistent;
    StepMovesRows(s, e, deps);
    forall k | IsDone(s.rows, k) ensures IsDone(Next(s, e, deps).rows, k) {
      assert RowMoves(s.rows[k], Next(s, e, deps).rows[k]);
    }
  }

  lemma WorkersDepsDone(s: State, e: Step, deps: Deps)
    requires Consistent(s, deps) && Enabled(s, e, deps)
    ensures e.WorkerStart? ==> SpawnedOk(s, deps, e.work)
    ensures e.WorkerFinish? ==> RunningOk(s, deps, e.work)
  {
  }

  /** Whatever is done completes, if the fates are what the rows end with. */
  lemma {:induction false} DoneCompletes(init: map<Key, Row>, s: State, es: seq<Step>, deps: Deps, fates: Key -> Fate)
    requires InRound(init, s, deps) && IsRun(s, es, deps) && forall e :: e in es ==> WithinRound(e)
    requires FatesOf(After(s, es, deps).rows, fates)
    requires forall k :: IsDone(s.rows, k) ==> Completes(init, deps, fates, k)
    ensures InRound(init, After(s, es, deps), deps)
    ensures forall k :: IsDone(After(s, es, deps).rows, k) ==> Completes(init, deps, fates, k)
    decreases |es|
  {
    hide InRound, Enabled, Next, WithinRound, Completes, FatesOf;
    if es == [] {
    } else {
      var e, u := es[0], Next(s, es[0], deps);
      assert e in es && forall x :: x in es[1..] ==> x in es;
      StepStaysInRound(init, s, e, deps);
      forall k | IsDone(u.rows, k) ensures Completes(init, deps, fates, k) {
        if !IsDone(s.rows, k) {
          NewlyDoneCompletes(init, s, e, es[1..], deps, fates, k);
        }
      }
      DoneCompletes(init, u, es[1..], deps, fates);
    }
  }

  /** Each subtask's fate is what its row shows. */
  ghost predicate FatesOf(rows: map<Key, Row>, fates: Key -> Fate) {
    forall k :: k in rows ==> fates(k) == Reports(rows[k].result)
  }

  lemma NewlyDoneCompletes(
    init: map<Key, Row>, s: State, e: Step, rest: seq<Step>, deps: Deps, fates: Key -> Fate, k: Key)
    requires InRound(init, s, deps) && Enabled(s, e, deps) && WithinRound(e)
    requires InRound(init, Next(s, e, deps), deps) && IsRun(Next(s, e, deps), rest, deps)
    requires forall x :: x in rest ==> WithinRound(x)
    requires FatesOf(After(Next(s, e, deps), rest, deps).rows, fates)
    requires forall d :: IsDone(s.rows, d) ==> Completes(init, deps, fates, d)
    requires IsDone(Next(s, e, deps).rows, k) && !IsDone(s.rows, k)
    ensures Completes(init, deps, fates, k)
  {
    hide Consistent, IsRun, After;
    var u := Next(s, e, deps);
    assert RowInRound(init[k], s, deps, k) && RowInRound(init[k], u, deps, k);
    FinalRowStays(u, rest, deps, k);
    assert Succeeds(fates(k));
    WorkersDepsDone(s, e, deps);
    assert e.WorkerFinish? && e.work.key == k && DepsDone(s.rows, deps, k);
    forall d | d in DepsOf(deps, k) ensures Completes(init, deps, fates, d) {
      assert IsDone(s.rows, d);
    }
    assert IsPending(init, k);
    CompletesByDeps(init, deps, fates, k);
  }

  lemma CompletesByDeps(init: map<Key, Row>, deps: Deps, fates: Key -> Fate, k: Key)
    requires IsPending(init, k) && Succeeds(fates(k)) && DepsComplete(init, deps, fates, k)
    ensures Completes(init, deps, fates, k)
  {
    forall s | Closed(init, deps, fates, s) ensures k in s {
      assert forall d :: d in DepsOf(deps, k) ==> Completes(init, deps, fates, d);
    }
  }

  lemma {:induction false} FinalRowStays(s: State, es: seq<Step>, deps: Deps, k: Key)
    requires Consistent(s, deps) && IsRun(s, es, deps) && k in s.rows && Terminal(s.rows[k].status)
    requires forall e :: e in es ==> WithinRound(e)
    ensures k in After(s, es, deps).rows && After(s, es, deps).rows[k] == s.rows[k]
    decreases |es|
  {
    hide Consistent, Enabled, Next, Terminal;
    if es == [] {
    } else {
      var u := Next(s, es[0], deps);
      assert es[0] in es && forall e :: e in es[1..] ==> e in es;
      StepKeepsConsistent(s, es[0], deps);
      StepMovesRows(s, es[0], deps);
      DoneStays(s.rows, s, es[0], deps);
      assert RowMoves(s.rows[k], u.rows[k]);
      FinalRowStays(u, es[1..], deps, k);
    }
  }

  /** A pending row has settled by its fate when its dependencies are done, and not moved otherwise. */
  ghost predicate AtRest(was: Row, rows: map<Key, Row>, deps: Deps, fate: Fate, k: Key)
    requires k in rows
  {
    if was.status == Pending && DepsDone(rows, deps, k) then rows[k] == Settled(was, fate) else rows[k] == was
  }

  lemma RowComesToRest(init: map<Key, Row>, t: State, deps: Deps, fates: Key -> Fate, k: Key)
    requires InRound(init, t, deps) && t.awaiting == {} && !IsReady(t.rows, deps, k)
    requires FatesOf(t.rows, fates) && k in init
    ensures init[k].status in {Pending, Done} && AtRest(init[k], t.rows, deps, fates(k), k)
  {
    hide Consistent, DepsDone;
    assert RowInRound(init[k], t, deps, k);
  }

  lemma DepsDoneMeans(rows: map<Key, Row>, deps: Deps, k: Key)
    ensures DepsDone(rows, deps, k) <==> forall d :: d in DepsOf(deps, k) ==> IsDone(rows, d)
  {
    if k in deps {
      assert forall d :: d in DepsOf(deps, k) <==> d in deps[k];
    }
  }

  lemma RestIsLeast(init: map<Key, Row>, rows: map<Key, Row>, deps: Deps, fates: Key -> Fate)
    requires rows.Keys == init.Keys
    requires forall k :: k in init ==> init[k].status in {Pending, Done} && AtRest(init[k], rows, deps, fates(k), k)
    requires forall k :: IsDone(rows, k) ==> Completes(init, deps, fates, k)
    ensures forall k :: IsDone(rows, k) <==> Completes(init, deps, fates, k)
  {
    hide Completes, Settled;
    var done := set k | k in rows && rows[k].status == Done;
    forall k | IsPending(init, k) && forall d :: d in DepsOf(deps, k) ==> d in done ensures DepsDone(rows, deps, k) {
      assert forall d :: d in DepsOf(deps, k) ==> IsDone(rows, d);
      DepsDoneMeans(rows, deps, k);
    }
    forall k | k in init
      ensures AtRest(init[k], rows, deps, fates(k), k)
      ensures Settled(init[k], fates(k)).status == Done <==> Succeeds(fates(k))
    {
      SettledDone(init[k], fates(k));
    }
    assert Closed(init, deps, fates, done);
    DoneIsLeast(init, deps, fates, done);
    forall k | Completes(init, deps, fates, k) ensures IsDone(rows, k) {
      assert k in done;
    }
  }

  /** When a round has come to rest with nothing ready, blocking the rest gives what the executor computes. */
  lemma RestingRoundIsExecuted(init: map<Key, Row>, t: State, deps: Deps, fates: Key -> Fate)
    requires InRound(init, t, deps) && t.awaiting == {} && forall k :: !IsReady(t.rows, deps, k)
    requires FatesOf(t.rows, fates) && forall k :: IsDone(t.rows, k) ==> Completes(init, deps, fates, k)
    ensures ExecutedAs(init, Next(t, BlockRest, deps).rows, deps, fates)
  {
    hide Consistent, Completes, IsReady, FatesOf, RowInRound, Settled, DepsDone, IsDone, Next;
    forall k | k in init ensures init[k].status in {Pending, Done} && AtRest(init[k], t.rows, deps, fates(k), k) {
      RowComesToRest(init, t, deps, fates, k);
    }
    RestIsLeast(init, t.rows, deps, fates);
    forall k | k in init ensures DepsComplete(init, deps, fates, k) <==> DepsDone(t.rows, deps, k) {
      DepsDoneMeans(t.rows, deps, k);
    }
    BlockingTheRest(init, t, deps, fates);
  }

  lemma BlockingTheRest(init: map<Key, Row>, t: State, deps: Deps, fates: Key -> Fate)
    requires t.awaiting == {} && t.rows.Keys == init.Keys
    requires forall k :: k in init ==> init[k].status in {Pending, Done} && AtRest(init[k], t.rows, deps, fates(k), k)
    requires forall k :: IsDone(t.rows, k) <==> Completes(init, deps, fates, k)
    requires forall k :: k in init ==> (DepsComplete(init, deps, fates, k) <==> DepsDone(t.rows, deps, k))
    ensures ExecutedAs(init, Next(t, BlockRest, deps).rows, deps, fates)
  {
    hide Completes, Settled, DepsComplete, DepsDone;
    var rows := Next(t, BlockRest, deps).rows;
    forall k | k in init ensures AtRest(init[k], t.rows, deps, fates(k), k) && Terminal(Settled(init[k], fates(k)).status) {
      SettledIsFinal(init[k], fates(k));
    }
    assert forall k :: IsDone(rows, k) <==> IsDone(t.rows, k);
  }

  lemma DoneIsLeast(init: map<Key, Row>, deps: Deps, fates: Key -> Fate, s: set<Key>)
    requires Closed(init, deps, fates, s)
    ensures forall k :: Completes(init, deps, fates, k) ==> k in s
  {
  }

  /**
   * However dispatches, polls, timeouts and workers interleave within a round, late workers of earlier
   * attempts included: once nothing is awaited and nothing is ready, blocking the rest leaves exactly the
   * rows that the executor computes for the fates the subtasks met.
   */
  lemma EveryRoundEndsAsExecuted(s: State, es: seq<Step>, deps: Deps)
    requires RoundOpen(s, deps) && IsRun(s, es, deps) && forall e :: e in es ==> WithinRound(e)
    requires After(s, es, deps).awaiting == {} && forall k :: !IsReady(After(s, es, deps).rows, deps, k)
    ensures exists fates :: ExecutedAs(s.rows, Next(After(s, es, deps), BlockRest, deps).rows, deps, fates)
  {
    hide Consistent, ExecutedAs, IsRun, After, WithinRound, IsReady;
    var t := After(s, es, deps);
    var fates := (k: Key) => if k in t.rows then Reports(t.rows[k].result) else TimesOut;
    DoneCompletes(s.rows, s, es, deps, fates);
    RestingRoundIsExecuted(s.rows, t, deps, fates);
    assert ExecutedAs(s.rows, Next(t, BlockRest, deps).rows, deps, fates);
  }
}
