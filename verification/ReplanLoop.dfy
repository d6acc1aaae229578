/**
 * The Conductor's build loop (agent-runner/conductor.py, `run_and_verify`, the vote of `verify_mission`,
 * `finalize`, `resume_mission`): run the graph, judge it, re-plan what failed, and stop.
 */
module ReplanLoop {
  import opened SubtaskProtocol
  import opened DagExecutor
  import Text

  // --------------------------------------------------------------------
  // The verdict
  // --------------------------------------------------------------------

  datatype Gate = NotRun | Ran(ok: bool)

  /** One adversarial review: whether it passes, and whether one of its findings is a blocker. */
  datatype Review = Review(passes: bool, blocker: bool)

  /** What verification sees in a round: the check gate, the comment gate and the reviewers. */
  datatype Evidence = Evidence(check: Gate, comments: Gate, reviews: seq<Review>)

  predicate GateOk(g: Gate) {
    g.Ran? ==> g.ok
  }

  /** The reviews that pass, as a set of reviewers. */
  function Passing(reviews: seq<Review>): set<nat> {
    set i: nat | i < |reviews| && reviews[i].passes
  }

  /** A strict majority passed, nobody saw a blocker, and no gate that ran failed. */
  predicate Ships(e: Evidence) {
    && 2 * |Passing(e.reviews)| > |e.reviews|
    && (forall r :: r in e.reviews ==> !r.blocker)
    && GateOk(e.check)
    && GateOk(e.comments)
  }

  lemma PassingGrows(reviews: seq<Review>, i: nat)
    requires i < |reviews|
    ensures |Passing(reviews[..i + 1])| == |Passing(reviews[..i])| + if reviews[i].passes then 1 else 0
  {
    if reviews[i].passes {
      assert Passing(reviews[..i + 1]) == Passing(reviews[..i]) + {i};
    } else {
      assert Passing(reviews[..i + 1]) == Passing(reviews[..i]);
    }
  }

  method Vote(e: Evidence) returns (ships: bool)
    ensures ships <==> Ships(e)
  {
    var passed, blockers := 0, false;
    var i := 0;
    while i < |e.reviews|
      invariant i <= |e.reviews|
      invariant passed == |Passing(e.reviews[..i])|
      invariant blockers <==> exists j :: 0 <= j < i && e.reviews[j].blocker
    {
      PassingGrows(e.reviews, i);
      if e.reviews[i].passes {
        passed := passed + 1;
      }
      blockers := blockers || e.reviews[i].blocker;
      i := i + 1;
    }
    assert e.reviews[..i] == e.reviews;
    var reviewersOk := passed >= |e.reviews| / 2 + 1 && !blockers;
    ships := (if e.check.Ran? then e.check.ok else true) && (if e.comments.Ran? then e.comments.ok else true) && reviewersOk;
  }

  // --------------------------------------------------------------------
  // Rounds
  // --------------------------------------------------------------------

  type Rows = map<Key, Row>

  /** The rows as a round starts them and as its graph execution leaves them. */
  datatype Round = Round(began: Rows, ended: Rows)

  const WORKSPACE_GONE := "workspace missing"

  function Summary(row: Row): string {
    if row.result.Outcome? then row.result.summary else ""
  }

  /** Some unfinished subtask reports that its worktree is gone. */
  predicate Gone(rows: Rows) {
    exists k :: k in rows && rows[k].status != Done && Text.Contains(Summary(rows[k]), WORKSPACE_GONE)
  }

  /** The subtasks that say why they are blocked. */
  function BlockedWithReason(rows: Rows): set<Key> {
    set k | k in rows && rows[k].status == Blocked && Summary(rows[k]) != ""
  }

  ghost predicate Passes(round: Round, e: Evidence) {
    AllDone(round.ended) && Ships(e)
  }

  /** Re-planning cannot help: a worktree is gone, or the same subtasks are blocked two rounds running. */
  ghost predicate Hopeless(rounds: seq<Round>, i: nat)
    requires i < |rounds|
  {
    || Gone(rounds[i].ended)
    || (i > 0 && BlockedWithReason(rounds[i].ended) != {}
        && BlockedWithReason(rounds[i].ended) == BlockedWithReason(rounds[i - 1].ended))
  }

  /** The graph settles or blocks every pending row, in its own attempt, and touches no other. */
  ghost predicate RoundRan(r: Round) {
    && r.ended.Keys == r.began.Keys
    && forall k :: k in r.began ==>
         && r.ended[k].attempt == r.began[k].attempt
         && r.ended[k].status != Pending
         && (r.began[k].status != Pending ==> r.ended[k] == r.began[k])
  }

  /** Each round opens a new attempt of what the one before left unfinished, or of everything if all was done. */
  ghost predicate Chain(init: Rows, rounds: seq<Round>) {
    && (forall i :: 0 <= i < |rounds| ==> RoundRan(rounds[i]))
    && (|rounds| > 0 ==> rounds[0].began == Reopened(init, false))
    && forall i :: 1 <= i < |rounds| ==> rounds[i].began == Reopened(rounds[i - 1].ended, AllDone(rounds[i - 1].ended))
  }

  function LastRows(init: Rows, rounds: seq<Round>): Rows {
    if rounds == [] then init else rounds[|rounds| - 1].ended
  }

  /** An attempt rises by at most one per round, so never past the number of rounds. */
  lemma {:induction false} AttemptsRiseByRounds(init: Rows, rounds: seq<Round>, k: Key)
    requires Chain(init, rounds) && k in init
    ensures var rows := LastRows(init, rounds);
            k in rows && init[k].attempt <= rows[k].attempt <= init[k].attempt + |rounds|
  {
    hide RoundRan;
    if rounds == [] {
    } else {
      var n := |rounds| - 1;
      AttemptsRiseByRounds(init, rounds[..n], k);
      RoundKeepsAttempts(rounds[n], k);
    }
  }

  lemma RoundKeepsAttempts(r: Round, k: Key)
    requires RoundRan(r) && k in r.began
    ensures k in r.ended && r.ended[k].attempt == r.began[k].attempt
  {
  }

  /** A subtask that is done keeps its row as long as something else is not. */
  lemma {:induction false} DoneRowsAreKept(init: Rows, rounds: seq<Round>, k: Key)
    requires Chain(init, rounds) && k in init && init[k].status == Done
    requires forall i :: 0 <= i < |rounds| - 1 ==> !AllDone(rounds[i].ended)
    ensures k in LastRows(init, rounds) && LastRows(init, rounds)[k] == init[k]
  {
    hide AllDone;
    if rounds == [] {
    } else {
      var n := |rounds| - 1;
      DoneRowsAreKept(init, rounds[..n], k);
      assert RoundRan(rounds[n]);
    }
  }

  // --------------------------------------------------------------------
  // The loop
  // --------------------------------------------------------------------

  datatype MissionStatus = Planned | Dispatching | Verifying | Finished | Partial | Escalated | Gated | Failed

  datatype Exhausted = Escalate | FilePartial

  /** What the outside world answers in each round. */
  datatype World = World(fates: nat -> Key -> Fate, evidence: nat -> Evidence)

  /** Each round executed the graph with the fates its subtasks met in that round. */
  ghost predicate Executed(rounds: seq<Round>, deps: Deps, world: World, start: nat) {
    forall i :: 0 <= i < |rounds| ==> ExecutedAs(rounds[i].began, rounds[i].ended, deps, world.fates(start + i))
  }

  /** What `RunAndVerify` promises of the rounds it ran. */
  ghost predicate LoopOutcome(
    init: Rows, deps: Deps, rounds: seq<Round>, world: World, start: nat, maxReplans: int, ok: bool)
  {
    && Chain(init, rounds)
    && Executed(rounds, deps, world, start)
    && |rounds| <= (if start <= maxReplans then maxReplans + 1 - start else 0)
    && (forall i :: 0 <= i < |rounds| - 1 ==> !Passes(rounds[i], world.evidence(start + i)) && !Hopeless(rounds, i))
    && (ok <==> rounds != [] && Passes(rounds[|rounds| - 1], world.evidence(start + |rounds| - 1)))
    && (!ok && |rounds| < maxReplans + 1 - start ==> rounds != [] && Hopeless(rounds, |rounds| - 1))
  }

  ghost predicate Going(init: Rows, deps: Deps, rounds: seq<Round>, world: World, start: nat) {
    && Chain(init, rounds)
    && Executed(rounds, deps, world, start)
    && forall i :: 0 <= i < |rounds| ==> !Passes(rounds[i], world.evidence(start + i)) && !Hopeless(rounds, i)
  }

  lemma ChainGrows(init: Rows, rounds: seq<Round>, r: Round)
    requires Chain(init, rounds) && RoundRan(r)
    requires r.began == if rounds == [] then Reopened(init, false)
                         else Reopened(LastRows(init, rounds), AllDone(LastRows(init, rounds)))
    ensures Chain(init, rounds + [r])
  {
    hide RoundRan, AllDone, Reopened;
  }

  lemma GoingStops(
    init: Rows, deps: Deps, rounds: seq<Round>, r: Round, world: World, start: nat, maxReplans: int, ok: bool)
    requires Going(init, deps, rounds, world, start) && Chain(init, rounds + [r])
    requires ExecutedAs(r.began, r.ended, deps, world.fates(start + |rounds|))
    requires start + |rounds| <= maxReplans
    requires ok <==> Passes(r, world.evidence(start + |rounds|))
    requires !ok && start + |rounds| < maxReplans ==> Hopeless(rounds + [r], |rounds|)
    ensures LoopOutcome(init, deps, rounds + [r], world, start, maxReplans, ok)
  {
    hide Chain, Passes, Gone, BlockedWithReason, Executed, ExecutedAs;
    var all := rounds + [r];
    ExecutedGrows(rounds, r, deps, world, start);
    forall i | 0 <= i < |rounds| ensures Hopeless(all, i) == Hopeless(rounds, i) && all[i] == rounds[i] {
    }
  }

  lemma ExecutedGrows(rounds: seq<Round>, r: Round, deps: Deps, world: World, start: nat)
    requires Executed(rounds, deps, world, start)
    requires ExecutedAs(r.began, r.ended, deps, world.fates(start + |rounds|))
    ensures Executed(rounds + [r], deps, world, start)
  {
    hide ExecutedAs;
  }

  lemma GoingGoesOn(init: Rows, deps: Deps, rounds: seq<Round>, r: Round, world: World, start: nat)
    requires Going(init, deps, rounds, world, start) && Chain(init, rounds + [r])
    requires ExecutedAs(r.began, r.ended, deps, world.fates(start + |rounds|))
    requires !Passes(r, world.evidence(start + |rounds|)) && !Hopeless(rounds + [r], |rounds|)
    ensures Going(init, deps, rounds + [r], world, start)
  {
    hide Chain, Passes, Gone, BlockedWithReason, Executed, ExecutedAs;
    var all := rounds + [r];
    ExecutedGrows(rounds, r, deps, world, start);
    forall i | 0 <= i < |rounds| ensures Hopeless(all, i) == Hopeless(rounds, i) && all[i] == rounds[i] {
    }
  }

  class Conductor {
    const mission: Mission
    var status: MissionStatus
    var round: nat

    constructor (mission: Mission)
      ensures this.mission == mission && status == Planned && round == 0
    {
      this.mission, status, round := mission, Planned, 0;
    }

    ghost predicate Valid()
      reads this, mission
    {
      mission.Valid()
    }

    /** Sends every unfinished subtask back to pending in a new attempt. */
    method OpenRound()
      requires Valid()
      modifies mission
      ensures Valid() && mission.rows == Reopened(old(mission.rows), false)
      ensures forall k :: k in mission.rows ==>
                mission.rows[k] == var was := old(mission.rows)[k];
                                   if was.status == Done then was else Row(Pending, was.attempt + 1, was.result)
    {
      ghost var before := mission.rows;
      var i := 0;
      while i < |mission.order|
        invariant i <= |mission.order| && mission.rows.Keys == before.Keys
        invariant forall j :: 0 <= j < i ==> mission.rows[mission.order[j]] == Reopened(before, false)[mission.order[j]]
        invariant forall j :: i <= j < |mission.order| ==> mission.rows[mission.order[j]] == before[mission.order[j]]
      {
        var k := mission.order[i];
        var row := mission.rows[k];
        DistinctAt(mission.order, i);
        if row.status != Done {
          mission.rows := mission.rows[k := Row(Pending, row.attempt + 1, row.result)];
        }
        i := i + 1;
      }
    }

    /** Marks the failed subtasks for another go, or all of them when only verification failed. */
    method Replan(failed: set<Key>)
      requires Valid() && failed == set k | k in mission.rows && mission.rows[k].status != Done
      modifies mission
      ensures Valid() && mission.rows == Replanned(old(mission.rows))
      ensures forall k :: k in mission.rows ==>
                mission.rows[k] == var was := old(mission.rows)[k];
                                   if failed == {} || was.status != Done then was.(status := Pending) else was
    {
      ghost var before := mission.rows;
      FailedMeansNotDone(before, failed);
      var i := 0;
      while i < |mission.order|
        invariant i <= |mission.order| && mission.rows.Keys == before.Keys
        invariant forall j :: 0 <= j < i ==> mission.rows[mission.order[j]] == Replanned(before)[mission.order[j]]
        invariant forall j :: i <= j < |mission.order| ==> mission.rows[mission.order[j]] == before[mission.order[j]]
      {
        var k := mission.order[i];
        DistinctAt(mission.order, i);
        if k in failed || failed == {} {
          mission.rows := mission.rows[k := mission.rows[k].(status := Pending)];
        }
        i := i + 1;
      }
    }

    /** Opens and executes one round. */
    method RunRound(fates: Key -> Fate)
      requires Valid()
      modifies this, mission
      ensures Valid() && status == Verifying && round == old(round)
      ensures RoundRan(Round(Reopened(old(mission.rows), false), mission.rows))
      ensures ExecutedAs(Reopened(old(mission.rows), false), mission.rows, mission.deps, fates)
    {
      hide Completes, DoneBefore, Reopened, ExecutedAs, RunsAs;
      OpenRound();
      status := Dispatching;
      ghost var began := mission.rows;
      var started, waves := mission.ExecuteDag(fates);
      ExecutionRunsRound(began, mission.rows, mission.deps, fates);
      status := Verifying;
    }

    method RunAndVerify(world: World, startRound: nat, maxReplans: int) returns (ok: bool, ghost rounds: seq<Round>)
      requires Valid()
      modifies this, mission
      ensures Valid()
      ensures LoopOutcome(old(mission.rows), mission.deps, rounds, world, startRound, maxReplans, ok)
      ensures mission.rows == LastRows(old(mission.rows), rounds)
      ensures rounds != [] ==> round == startRound + |rounds| - 1
    {
      hide Reopened, AllDone, RoundRan, ExecutedAs, Chain, Passes, Gone, BlockedWithReason, Ships, Going, LoopOutcome,
        Replanned;
      ghost var init := mission.rows;
      rounds := [];
      var prevBlocked: set<Key> := {};
      var rnd := startRound;
      StartsGoing(init, mission.deps, world, startRound, maxReplans);
      while rnd <= maxReplans
        invariant Valid() && Going(init, mission.deps, rounds, world, startRound)
        invariant rnd == startRound + |rounds|
        invariant rnd <= maxReplans || rounds == []
        invariant rounds == [] ==> mission.rows == init
        invariant rounds != [] ==> mission.rows == Replanned(LastRows(init, rounds))
        invariant prevBlocked == if rounds == [] then {} else BlockedWithReason(LastRows(init, rounds))
      {
        ghost var before := mission.rows;
        round := rnd;
        RunRound(world.fates(rnd));
        ghost var r := Round(Reopened(before, false), mission.rows);
        if rounds != [] {
          ReplanThenBumpIsRoundStart(LastRows(init, rounds));
        }
        GoingChains(init, mission.deps, rounds, world, startRound);
        ChainGrows(init, rounds, r);
        ghost var all := rounds + [r];
        assert LastRows(init, all) == mission.rows;

        var failed := set k | k in mission.rows && mission.rows[k].status != Done;
        FailedMeansNotDone(mission.rows, failed);
        ok := false;
        if failed == {} {
          ok := Vote(world.evidence(rnd));
        }
        PassesMeans(r, world.evidence(rnd));
        if ok {
          GoingStops(init, mission.deps, rounds, r, world, startRound, maxReplans, true);
          rounds := all;
          return;
        }
        var gone := WorkspaceGone(mission.rows);
        var blocked := Blocked(mission.rows);
        HopelessMeans(init, rounds, r);
        if gone || (blocked != {} && blocked == prevBlocked) || rnd == maxReplans {
          GoingStops(init, mission.deps, rounds, r, world, startRound, maxReplans, false);
          rounds := all;
          return;
        }
        prevBlocked := blocked;
        GoingGoesOn(init, mission.deps, rounds, r, world, startRound);
        rounds := all;
        Replan(failed);
        rnd := rnd + 1;
      }
      ok := false;
    }

    static method WorkspaceGone(rows: Rows) returns (gone: bool)
      ensures gone <==> Gone(rows)
    {
      gone := exists k :: k in rows && rows[k].status != Done && Text.Contains(Summary(rows[k]), WORKSPACE_GONE);
    }

    static method Blocked(rows: Rows) returns (blocked: set<Key>)
      ensures blocked == BlockedWithReason(rows)
    {
      blocked := set k | k in rows && rows[k].status == SubtaskProtocol.Blocked && Summary(rows[k]) != "";
    }

    /**
     * The shared tail: a mission is finished only after a round in which every subtask was done and the
     * evidence shipped; held at the gate when filing is gated; otherwise partial or escalated.
     */
    method Finalize(world: World, startRound: nat, maxReplans: int, gateBeforeReport: bool, onExhausted: Exhausted)
      returns (ghost rounds: seq<Round>)
      requires Valid()
      modifies this, mission
      ensures Valid() && mission.rows == LastRows(old(mission.rows), rounds)
      ensures exists ok :: LoopOutcome(old(mission.rows), mission.deps, rounds, world, startRound, maxReplans, ok)
      ensures var passed := rounds != [] && Passes(rounds[|rounds| - 1], world.evidence(startRound + |rounds| - 1));
              && (status == Finished <==> passed && !gateBeforeReport)
              && (status == Partial <==> !passed && onExhausted == FilePartial && !gateBeforeReport)
              && (status == Escalated <==> !passed && onExhausted == Escalate)
              && (status == Gated <==> gateBeforeReport && (passed || onExhausted == FilePartial))
    {
      hide Chain, Passes, Hopeless;
      var ok: bool;
      ok, rounds := RunAndVerify(world, startRound, maxReplans);
      if !ok {
        if onExhausted == FilePartial {
          status := if gateBeforeReport then Gated else Partial;
        } else {
          status := Escalated;
        }
      } else {
        status := if gateBeforeReport then Gated else Finished;
      }
    }

    /** Resuming leaves an ended mission and one without a plan alone, and otherwise takes up the persisted round. */
    method ResumeMission(world: World, maxReplans: int, gateBeforeReport: bool, onExhausted: Exhausted)
      returns (ghost rounds: seq<Round>)
      requires Valid()
      modifies this, mission
      ensures Valid()
      ensures old(status) in {Finished, Failed, Partial} || old(mission.rows) == map[] ==>
                status == old(status) && mission.rows == old(mission.rows) && rounds == []
      ensures old(status) !in {Finished, Failed, Partial} && old(mission.rows) != map[] ==>
                && mission.rows == LastRows(Interrupted(old(mission.rows)), rounds)
                && (exists ok ::
                      LoopOutcome(Interrupted(old(mission.rows)), mission.deps, rounds, world, old(round), maxReplans, ok))
                && var passed := rounds != [] && Passes(rounds[|rounds| - 1], world.evidence(old(round) + |rounds| - 1));
                   && (status == Finished <==> passed && !gateBeforeReport)
                   && (status == Partial <==> !passed && onExhausted == FilePartial && !gateBeforeReport)
                   && (status == Escalated <==> !passed && onExhausted == Escalate)
                   && (status == Gated <==> gateBeforeReport && (passed || onExhausted == FilePartial))
    {
      hide Chain, Passes, Hopeless;
      rounds := [];
      if status in {Finished, Failed, Partial} || |mission.order| == 0 {
        assert |mission.order| == 0 ==> mission.rows == map[];
        return;
      }
      assert mission.order[0] in mission.rows;
      mission.rows := map k | k in mission.rows ::
        if mission.rows[k].status == Running then mission.rows[k].(status := Pending) else mission.rows[k];
      rounds := Finalize(world, round, maxReplans, gateBeforeReport, onExhausted);
    }
  }

  // --------------------------------------------------------------------
  // What success takes
  // --------------------------------------------------------------------

  /** A round that passes had every subtask it opened report done, and holds exactly those reports. */
  lemma PassingIsReported(r: Round, deps: Deps, fates: Key -> Fate, e: Evidence)
    requires ExecutedAs(r.began, r.ended, deps, fates) && Passes(r, e)
    ensures forall k :: k in r.began ==>
              k in r.ended
              && if r.began[k].status == Pending then
                   && fates(k).Reports? && fates(k).result.Outcome? && fates(k).result.status == Done
                   && r.ended[k] == Row(Done, r.began[k].attempt, fates(k).result)
                 else r.ended[k] == r.began[k]
  {
    hide Completes, DepsComplete;
    forall k | k in r.began ensures k in r.ended && r.ended[k].status == Done {
    }
  }

  /** The loop succeeds only if, in its last round, every subtask still open reported done. */
  lemma SuccessIsReported(
    init: Rows, deps: Deps, rounds: seq<Round>, world: World, start: nat, maxReplans: int)
    requires LoopOutcome(init, deps, rounds, world, start, maxReplans, true)
    ensures rounds != []
    ensures var last, fates := rounds[|rounds| - 1], world.fates(start + |rounds| - 1);
            forall k :: k in last.began && last.began[k].status == Pending ==>
              && fates(k).Reports? && fates(k).result.Outcome? && fates(k).result.status == Done
              && k in last.ended && last.ended[k] == Row(Done, last.began[k].attempt, fates(k).result)
  {
    hide ExecutedAs, Passes, Hopeless, Chain;
    var n := |rounds| - 1;
    PassingIsReported(rounds[n], deps, world.fates(start + n), world.evidence(start + n));
  }

  /** A subtask that reports done in no round is done after none of them. */
  lemma {:induction false} NeverReportedNeverDone(
    init: Rows, deps: Deps, rounds: seq<Round>, world: World, start: nat, k: Key)
    requires Chain(init, rounds) && Executed(rounds, deps, world, start) && k in init && init[k].status != Done
    requires forall n :: start <= n < start + |rounds| ==> !Succeeds(world.fates(n)(k))
    ensures k in LastRows(init, rounds) && LastRows(init, rounds)[k].status != Done
  {
    hide ExecutedAs, Succeeds, RoundRan;
    if rounds == [] {
    } else {
      var n := |rounds| - 1;
      NeverReportedNeverDone(init, deps, rounds[..n], world, start, k);
      assert rounds[n].began == Reopened(LastRows(init, rounds[..n]), false) by {
        assert n > 0 ==> LastRows(init, rounds[..n]) == rounds[n - 1].ended && !AllDone(rounds[n - 1].ended);
      }
      UnreportedIsNotDone(rounds[n], deps, world.fates(start + n), k);
    }
  }

  lemma UnreportedIsNotDone(r: Round, deps: Deps, fates: Key -> Fate, k: Key)
    requires ExecutedAs(r.began, r.ended, deps, fates) && k in r.began && r.began[k].status == Pending
    requires !Succeeds(fates(k))
    ensures k in r.ended && r.ended[k].status != Done
  {
    hide Completes, DepsComplete;
  }

  /** Then the mission does not succeed, however many rounds it has. */
  lemma FailingSubtaskFailsTheMission(
    init: Rows, deps: Deps, rounds: seq<Round>, world: World, start: nat, maxReplans: int, ok: bool, k: Key)
    requires LoopOutcome(init, deps, rounds, world, start, maxReplans, ok) && k in init && init[k].status != Done
    requires forall n :: start <= n < start + |rounds| ==> !Succeeds(world.fates(n)(k))
    ensures !ok
  {
    hide Chain, Executed, Hopeless, Succeeds;
    NeverReportedNeverDone(init, deps, rounds, world, start, k);
  }

  lemma StartsGoing(init: Rows, deps: Deps, world: World, start: nat, maxReplans: int)
    ensures Going(init, deps, [], world, start)
    ensures start > maxReplans ==> LoopOutcome(init, deps, [], world, start, maxReplans, false)
  {
  }

  lemma GoingChains(init: Rows, deps: Deps, rounds: seq<Round>, world: World, start: nat)
    requires Going(init, deps, rounds, world, start)
    ensures Chain(init, rounds)
  {
  }

  lemma FailedMeansNotDone(rows: Rows, failed: set<Key>)
    requires failed == set k | k in rows && rows[k].status != Done
    ensures failed == {} <==> AllDone(rows)
  {
    if failed == {} {
      forall k | k in rows ensures rows[k].status == Done {
        assert k !in failed;
      }
    }
  }

  lemma PassesMeans(r: Round, e: Evidence)
    ensures Passes(r, e) <==> AllDone(r.ended) && Ships(e)
  {
  }

  lemma HopelessMeans(init: Rows, rounds: seq<Round>, r: Round)
    ensures Hopeless(rounds + [r], |rounds|) <==>
      (Gone(r.ended)
       || (rounds != [] && BlockedWithReason(r.ended) != {}
           && BlockedWithReason(r.ended) == BlockedWithReason(LastRows(init, rounds))))
  {
    hide Gone, BlockedWithReason;
  }

  lemma ExecutionRunsRound(began: Rows, ended: Rows, deps: Deps, fates: Key -> Fate)
    requires ExecutedAs(began, ended, deps, fates)
    ensures RoundRan(Round(began, ended))
  {
    hide Completes, DepsComplete;
    forall k | k in began ensures Terminal(Settled(began[k], fates(k)).status) {
      SettledIsFinal(began[k], fates(k));
    }
  }
}
