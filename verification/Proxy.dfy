/**
 * The retry, shed and revert loops around an adversarial upstream
 * (proxy/main.py, `_nonstream_response` and `_stream_response`).
 * `upstream` answers the n-th send of the request and `active` is what the shared cooldown table shows
 * at the n-th shed decision, whatever other requests have recorded in between.
 */
module Proxy {
  import opened Options
  import opened Routing

  datatype Reply = Status(code: int) | ConnectError

  datatype Body = Original | Rewritten(model: string)

  /** Which models were tried, in order, each with the replies it got. */
  datatype Run = Run(model: string, body: Body, replies: seq<Reply>)

  predicate Retryable(code: int) {
    code == 500 || code == 502 || code == 503 || code == 529
  }

  predicate IsRetryable(code: int, isClassifier: bool) {
    Retryable(code) || (isClassifier && code == 429)
  }

  /** The original bytes, unless the model was really swapped in a body that could be parsed. */
  function BodyFor(model: string, r: Request): Body {
    if model == "" || model == r.requested || !r.hasBody then Original else Rewritten(model)
  }

  // --------------------------------------------------------------------
  // Vocabulary of the contracts
  // --------------------------------------------------------------------

  function Sends(runs: seq<Run>): nat {
    if runs == [] then 0 else Sends(runs[..|runs| - 1]) + |runs[|runs| - 1].replies|
  }

  /** How often one model may be tried. */
  function Attempts(maxRetries: int): nat {
    if maxRetries + 1 > 0 then maxRetries + 1 else 0
  }

  /** Whether a reply makes the loop try the same model again. A 429 does so when the proxy owns it:
      always for streams, for other requests only in permission checks. */
  predicate Again(reply: Reply, owns429: bool) {
    reply.ConnectError? || IsRetryable(reply.code, owns429)
  }

  /** The replies of one model: every reply but the last asked for another attempt, and the last did so
      only when the attempts were used up. */
  ghost predicate RetriedWell(replies: seq<Reply>, owns429: bool, maxRetries: int) {
    && |replies| <= Attempts(maxRetries)
    && (forall k :: 0 <= k < |replies| - 1 ==> Again(replies[k], owns429))
    && (|replies| < Attempts(maxRetries) ==> replies != [] && !Again(replies[|replies| - 1], owns429))
  }

  /** The replies are the upstream's, from the given send on. */
  ghost predicate Answered(replies: seq<Reply>, upstream: nat -> Reply, from: nat) {
    forall k :: 0 <= k < |replies| ==> replies[k] == upstream(from + k)
  }

  /** Every run sent the right bytes, was retried as it should be and got the next answers in order. */
  ghost predicate RunsHonest(runs: seq<Run>, r: Request, owns429: bool, maxRetries: int, upstream: nat -> Reply) {
    forall i :: 0 <= i < |runs| ==> RunHonest(runs, i, r, owns429, maxRetries, upstream)
  }

  ghost predicate RunHonest(runs: seq<Run>, i: nat, r: Request, owns429: bool, maxRetries: int, upstream: nat -> Reply)
    requires i < |runs|
  {
    && runs[i].body == BodyFor(runs[i].model, r)
    && RetriedWell(runs[i].replies, owns429, maxRetries)
    && Answered(runs[i].replies, upstream, Sends(runs[..i]))
  }

  lemma OneMoreRun(runs: seq<Run>, run: Run, r: Request, owns429: bool, maxRetries: int, upstream: nat -> Reply)
    requires RunsHonest(runs, r, owns429, maxRetries, upstream)
    requires run.body == BodyFor(run.model, r) && RetriedWell(run.replies, owns429, maxRetries)
    requires Answered(run.replies, upstream, Sends(runs))
    ensures RunsHonest(runs + [run], r, owns429, maxRetries, upstream)
  {
    forall i | 0 <= i < |runs + [run]| ensures RunHonest(runs + [run], i, r, owns429, maxRetries, upstream) {
      if i < |runs| {
        assert RunHonest(runs, i, r, owns429, maxRetries, upstream);
        assert (runs + [run])[..i] == runs[..i];
      } else {
        assert (runs + [run])[..i] == runs;
      }
    }
  }

  /** The runs before the last are honest, and the last got the answers after theirs. */
  lemma AllButTheLast(runs: seq<Run>, r: Request, owns429: bool, maxRetries: int, upstream: nat -> Reply)
    requires RunsHonest(runs, r, owns429, maxRetries, upstream) && runs != []
    ensures var n := |runs| - 1;
            && RunsHonest(runs[..n], r, owns429, maxRetries, upstream)
            && RetriedWell(runs[n].replies, owns429, maxRetries)
            && Answered(runs[n].replies, upstream, Sends(runs[..n]))
  {
    hide RetriedWell, Answered, BodyFor;
    var n := |runs| - 1;
    var init := runs[..n];
    forall i | 0 <= i < n ensures RunHonest(init, i, r, owns429, maxRetries, upstream) {
      assert RunHonest(runs, i, r, owns429, maxRetries, upstream);
      assert init[..i] == runs[..i];
    }
    assert RunHonest(runs, n, r, owns429, maxRetries, upstream);
  }

  /** Bounded attempts per model bound the sends of a whole run. */
  lemma {:induction false} SendsBounded(runs: seq<Run>, r: Request, owns429: bool, maxRetries: int,
                                        upstream: nat -> Reply, models: nat)
    requires RunsHonest(runs, r, owns429, maxRetries, upstream) && |runs| <= models
    ensures Sends(runs) <= Attempts(maxRetries) * models
  {
    if runs == [] {
      assert Attempts(maxRetries) * models >= 0;
    } else {
      AllButTheLast(runs, r, owns429, maxRetries, upstream);
      SendsBounded(runs[..|runs| - 1], r, owns429, maxRetries, upstream, models - 1);
      assert Attempts(maxRetries) * models == Attempts(maxRetries) * (models - 1) + Attempts(maxRetries);
    }
  }

  /** One shed step: a pool entry strictly below what the current model resolves to. */
  ghost predicate StepsDown(pool: Pool, from: string, to: string) {
    && Find(pool, from).Some? && to != ""
    && exists m :: m in pool && m.id == to && m.cost < Find(pool, from).value.cost
  }

  ghost predicate FallingLadder(pool: Pool, runs: seq<Run>) {
    forall i, j {:trigger runs[i], runs[j]} :: 0 <= i && j == i + 1 && j < |runs| ==>
      StepsDown(pool, runs[i].model, runs[j].model)
  }

  /** Number of pool entries that cost less than what the model resolves to. */
  function Below(pool: Pool, model: string): nat {
    if Find(pool, model).None? then 0 else |CheaperThan(pool, Find(pool, model).value.cost, {})|
  }

  lemma {:induction false} CheaperIsShorter(pool: Pool, low: real, high: real, m: Model)
    requires low <= high
    ensures |CheaperThan(pool, low, {})| <= |CheaperThan(pool, high, {})|
    ensures m in pool && low <= m.cost < high ==> |CheaperThan(pool, low, {})| < |CheaperThan(pool, high, {})|
  {
    if pool == [] {
    } else {
      CheaperIsShorter(pool[1..], low, high, m);
      assert pool == [pool[0]] + pool[1..];
    }
  }

  lemma {:induction false} CheaperIsProper(pool: Pool, cost: real, m: Model)
    ensures |CheaperThan(pool, cost, {})| <= |pool|
    ensures m in pool && m.cost >= cost ==> |CheaperThan(pool, cost, {})| < |pool|
  {
    if pool == [] {
    } else {
      CheaperIsProper(pool[1..], cost, m);
      assert pool == [pool[0]] + pool[1..];
    }
  }

  lemma BelowIsProper(pool: Pool, model: string)
    requires pool != []
    ensures Below(pool, model) < |pool|
  {
    var found := Find(pool, model);
    if found.Some? {
      CheaperIsProper(pool, found.value.cost, found.value);
    }
  }

  /** Each shed step leaves strictly fewer entries below. */
  lemma SheddingDescends(pool: Pool, from: string, to: string)
    requires DistinctIds(pool) && StepsDown(pool, from, to)
    ensures Below(pool, to) < Below(pool, from)
  {
    var m :| m in pool && m.id == to && m.cost < Find(pool, from).value.cost;
    FindExact(pool, m);
    CheaperIsShorter(pool, m.cost, Find(pool, from).value.cost, m);
  }

  lemma ShedStepsDown(pool: Pool, current: string, active: set<string>)
    requires ShedModel(current, pool, active) != ""
    ensures StepsDown(pool, current, ShedModel(current, pool, active))
  {
    ShedGoesOneStepDown(current, pool, active);
  }

  /** Along a falling ladder every model stays as cheap as the first decision made it. */
  lemma {:induction false} LadderNeverDearer(pool: Pool, requested: string, runs: seq<Run>, i: nat)
    requires DistinctIds(pool) && FallingLadder(pool, runs) && i < |runs|
    requires NeverDearer(pool, requested, runs[0].model)
    ensures NeverDearer(pool, requested, runs[i].model)
    decreases i
  {
    if i == 0 {
    } else {
      LadderNeverDearer(pool, requested, runs, i - 1);
      assert StepsDown(pool, runs[i - 1].model, runs[i].model);
      StepKeepsNeverDearer(pool, requested, runs[i - 1].model, runs[i].model);
    }
  }

  lemma StepKeepsNeverDearer(pool: Pool, requested: string, from: string, to: string)
    requires DistinctIds(pool) && NeverDearer(pool, requested, from) && StepsDown(pool, from, to)
    ensures NeverDearer(pool, requested, to)
  {
    if from != requested {
      var m :| m in pool && m.id == from && m.cost <= Find(pool, requested).value.cost;
      FindExact(pool, m);
    }
  }

  // --------------------------------------------------------------------
  // Non-streaming requests
  // --------------------------------------------------------------------

  datatype Outcome = Upstream(code: int) | BadGateway

  /** One failure reported to the cooldown table. */
  datatype Recorded = Recorded(model: string, code: int)

  /** Every retryable status and every 429 is recorded against the model that returned it. */
  function RecordsOf(model: string, replies: seq<Reply>): seq<Recorded> {
    if replies == [] then []
    else
      var init, last := RecordsOf(model, replies[..|replies| - 1]), replies[|replies| - 1];
      if last.Status? && (Retryable(last.code) || last.code == 429) then init + [Recorded(model, last.code)] else init
  }

  function AllRecords(runs: seq<Run>): seq<Recorded> {
    if runs == [] then []
    else
      var last := runs[|runs| - 1];
      AllRecords(runs[..|runs| - 1]) + RecordsOf(last.model, last.replies)
  }

  /** Tries one model until it commits or the attempts are used up. */
  method TryModel(model: string, isClassifier: bool, maxRetries: int, upstream: nat -> Reply, sent: nat)
    returns (replies: seq<Reply>, records: seq<Recorded>)
    ensures RetriedWell(replies, isClassifier, maxRetries) && Answered(replies, upstream, sent)
    ensures records == RecordsOf(model, replies)
  {
    hide Answered, RecordsOf;
    replies, records := [], [];
    NothingAnswered(model, upstream, sent);
    var attempt := 0;
    while attempt < maxRetries + 1
      invariant attempt == |replies| <= Attempts(maxRetries)
      invariant Answered(replies, upstream, sent) && records == RecordsOf(model, replies)
      invariant forall k :: 0 <= k < |replies| ==> Again(replies[k], isClassifier)
      decreases maxRetries + 1 - attempt
    {
      var r := upstream(sent + attempt);
      OneMoreReply(model, replies, r, upstream, sent);
      replies := replies + [r];
      match r {
        case ConnectError =>
          if attempt >= maxRetries { break; }
        case Status(code) =>
          if IsRetryable(code, isClassifier) {
            records := records + [Recorded(model, code)];
            if attempt >= maxRetries { break; }
          } else {
            if code == 429 {
              records := records + [Recorded(model, 429)];
            }
            break;
          }
      }
      attempt := attempt + 1;
    }
  }

  function LastReply(replies: seq<Reply>): Reply {
    if replies == [] then ConnectError else replies[|replies| - 1]
  }

  /** The loop stops for a committed status, for a session that must not shed, after a revert,
      or because there is nothing left to shed to. */
  ghost predicate StopsRightly(r: Request, c: Config, model: string, reply: Reply, owns429: bool, reverted: bool,
                               active: set<string>)
  {
    || !Again(reply, owns429)
    || NeverSheds(r, c)
    || reverted
    || ShedModel(model, c.pool, active) == ""
  }

  /** Work and deepseek sessions keep their model, except for permission checks. */
  predicate NeverSheds(r: Request, c: Config) {
    (IsWork(r) || IsDeepseek(r, c)) && !IsClassifier(r, c)
  }

  /** A permission check whose cheaper model rejected the body, to be retried on the model it asked for. */
  predicate MustRevert(r: Request, c: Config, model: string, reply: Reply) {
    IsClassifier(r, c) && reply == Status(400) && model != r.requested
  }

  /** A falling ladder of models from the first decision, staying put for sessions that never shed. */
  ghost predicate ShedsFrom(r: Request, c: Config, served: string, runs: seq<Run>) {
    && FallingLadder(c.pool, runs)
    && (runs != [] ==> runs[0].model == served)
    && (|runs| > 1 ==> !NeverSheds(r, c))
  }

  /** All models of a non-streaming request: a falling ladder, and after a revert one more try. */
  ghost predicate NonStreamShape(r: Request, c: Config, served: string, runs: seq<Run>, reverted: bool) {
    if !reverted then runs != [] && ShedsFrom(r, c, served, runs)
    else
      && |runs| >= 2 && ShedsFrom(r, c, served, runs[..|runs| - 1])
      && MustRevert(r, c, runs[|runs| - 2].model, LastReply(runs[|runs| - 2].replies))
      && runs[|runs| - 1].model == r.requested
  }

  /** Before the next model is tried: the models so far, and why `model` is next. */
  ghost predicate AboutToTry(r: Request, c: Config, served: string, runs: seq<Run>, model: string, reverted: bool) {
    && ShedsFrom(r, c, served, runs)
    && (runs == [] ==> model == served && !reverted)
    && (runs != [] && !reverted ==> !NeverSheds(r, c) && StepsDown(c.pool, runs[|runs| - 1].model, model))
    && (reverted ==> runs != [] && model == r.requested
                     && MustRevert(r, c, runs[|runs| - 1].model, LastReply(runs[|runs| - 1].replies)))
  }

  lemma ExtendLadder(r: Request, c: Config, served: string, runs: seq<Run>, run: Run)
    requires AboutToTry(r, c, served, runs, run.model, false)
    ensures ShedsFrom(r, c, served, runs + [run])
  {
    var all := runs + [run];
    forall i, j {:trigger all[i], all[j]} | 0 <= i && j == i + 1 && j < |all|
      ensures StepsDown(c.pool, all[i].model, all[j].model)
    {
      if j < |runs| { assert all[i] == runs[i] && all[j] == runs[j]; }
    }
  }

  /**
   * The client gets the status of the very last send, and a bad gateway when that got no answer. A
   * permission check is told 400 only by the model it asked for.
   */
  method NonStream(r: Request, c: Config, maxRetries: int, upstream: nat -> Reply, active: nat -> set<string>)
    returns (outcome: Outcome, runs: seq<Run>, reverted: bool, records: seq<Recorded>, decisions: nat)
    requires DistinctIds(c.pool) && c.pool != []
    ensures NonStreamShape(r, c, DecideServed(r, c, active(0)), runs, reverted)
    ensures |runs| <= |c.pool| + (if reverted then 1 else 0)
    ensures Sends(runs) <= Attempts(maxRetries) * (|c.pool| + (if reverted then 1 else 0))
    ensures RunsHonest(runs, r, IsClassifier(r, c), maxRetries, upstream) && records == AllRecords(runs)
    ensures outcome == if Sends(runs) == 0 then BadGateway
                       else match upstream(Sends(runs) - 1) {
                              case ConnectError => BadGateway
                              case Status(code) => Upstream(code)
                            }
    ensures IsClassifier(r, c) && outcome == Upstream(400) ==> runs[|runs| - 1].model == r.requested
    ensures var last := runs[|runs| - 1];
      && LastReply(last.replies) == (if Sends(runs) == 0 then ConnectError else upstream(Sends(runs) - 1))
      && StopsRightly(r, c, last.model, LastReply(last.replies), IsClassifier(r, c), reverted, active(decisions))
      && (!reverted ==> !MustRevert(r, c, last.model, LastReply(last.replies)))
  {
    hide FallingLadder, StepsDown, ShedsFrom, RunsHonest, Below, DecideServed, ShedModel, RecordsOf, DistinctIds,
      RetriedWell, Answered, BodyFor, Sends, AllRecords, NonStreamShape, AboutToTry;
    var model := DecideServed(r, c, active(0));
    runs, reverted, records, decisions := [], false, [], 0;
    ghost var served := model;
    BelowIsProper(c.pool, model);
    NoRunsYet(r, c, served, maxRetries, upstream);
    FirstTry(r, c, served);
    while true
      invariant AboutToTry(r, c, served, runs, model, reverted)
      invariant |runs| + (if reverted then 0 else Below(c.pool, model) + 1) <= |c.pool|
      invariant RunsHonest(runs, r, IsClassifier(r, c), maxRetries, upstream) && records == AllRecords(runs)
      decreases !reverted, |c.pool| - |runs|
    {
      var replies, newRecords := TryModel(model, IsClassifier(r, c), maxRetries, upstream, Sends(runs));
      var run := Run(model, BodyFor(model, r), replies);
      OneMoreRun(runs, run, r, IsClassifier(r, c), maxRetries, upstream);
      ShapeAfterTry(r, c, served, runs, run, reverted);
      CountOneMoreRun(runs, run);
      runs := runs + [run];
      records := records + newRecords;
      var reply := LastReply(replies);
      if IsClassifier(r, c) && !reverted && reply == Status(400) && model != r.requested {
        RevertTry(r, c, served, runs);
        model, reverted := r.requested, true;
        continue;
      }
      if reply.Status? && !IsRetryable(reply.code, IsClassifier(r, c)) {
        break;
      }
      if (IsWork(r) || IsDeepseek(r, c)) && !IsClassifier(r, c) {
        break;
      }
      if reverted {
        break;
      }
      decisions := decisions + 1;
      var next := ShedModel(model, c.pool, active(decisions));
      ShedLands(c.pool, model, active(decisions));
      if next == "" || next == model {
        break;
      }
      NextTry(r, c, served, runs, next);
      model := next;
    }
    SendsBounded(runs, r, IsClassifier(r, c), maxRetries, upstream, |c.pool| + (if reverted then 1 else 0));
    LastSendAnswered(runs, r, IsClassifier(r, c), maxRetries, upstream);
    match LastReply(runs[|runs| - 1].replies)
    case ConnectError => outcome := BadGateway;
    case Status(code) => outcome := Upstream(code);
  }

  /** The first model is the decided one; every later one is a shed step below the last. */
  lemma FirstTry(r: Request, c: Config, served: string)
    ensures AboutToTry(r, c, served, [], served, false)
  {
  }

  lemma NextTry(r: Request, c: Config, served: string, runs: seq<Run>, next: string)
    requires runs != [] && ShedsFrom(r, c, served, runs) && !NeverSheds(r, c)
    requires StepsDown(c.pool, runs[|runs| - 1].model, next)
    ensures AboutToTry(r, c, served, runs, next, false)
  {
  }

  /** What has been tried has the shape of a request, and before a revert it is a ladder. */
  lemma ShapeAfterTry(r: Request, c: Config, served: string, runs: seq<Run>, run: Run, reverted: bool)
    requires AboutToTry(r, c, served, runs, run.model, reverted)
    ensures NonStreamShape(r, c, served, runs + [run], reverted)
    ensures !reverted ==> ShedsFrom(r, c, served, runs + [run])
  {
    var all := runs + [run];
    assert all[..|all| - 1] == runs;
    if !reverted {
      ExtendLadder(r, c, served, runs, run);
    } else {
      assert all[|all| - 2] == runs[|runs| - 1];
    }
  }

  lemma RevertTry(r: Request, c: Config, served: string, runs: seq<Run>)
    requires runs != [] && ShedsFrom(r, c, served, runs)
    requires MustRevert(r, c, runs[|runs| - 1].model, LastReply(runs[|runs| - 1].replies))
    ensures AboutToTry(r, c, served, runs, r.requested, true)
  {
  }

  lemma CountOneMoreRun(runs: seq<Run>, run: Run)
    ensures Sends(runs + [run]) == Sends(runs) + |run.replies|
    ensures AllRecords(runs + [run]) == AllRecords(runs) + RecordsOf(run.model, run.replies)
  {
    assert (runs + [run])[..|runs|] == runs;
  }

  lemma LastSendAnswered(runs: seq<Run>, r: Request, owns429: bool, maxRetries: int, upstream: nat -> Reply)
    requires runs != [] && RunsHonest(runs, r, owns429, maxRetries, upstream)
    ensures LastReply(runs[|runs| - 1].replies) == if Sends(runs) == 0 then ConnectError else upstream(Sends(runs) - 1)
  {
    hide BodyFor, Again;
    var n := |runs| - 1;
    assert RunHonest(runs, n, r, owns429, maxRetries, upstream);
    assert Sends(runs) == Sends(runs[..n]) + |runs[n].replies|;
    if runs[n].replies == [] {
      assert Attempts(maxRetries) == 0;
      SendsBounded(runs, r, owns429, maxRetries, upstream, |runs|);
      assert Attempts(maxRetries) * |runs| == 0;
    }
  }

  lemma NoRunsYet(r: Request, c: Config, served: string, maxRetries: int, upstream: nat -> Reply)
    ensures ShedsFrom(r, c, served, []) && forall owns429 :: RunsHonest([], r, owns429, maxRetries, upstream)
    ensures Sends([]) == 0 && AllRecords([]) == []
  {
  }

  /** Where a shed goes: strictly down, hence to another model with fewer entries below it. */
  lemma ShedLands(pool: Pool, model: string, active: set<string>)
    requires DistinctIds(pool)
    ensures var next := ShedModel(model, pool, active);
      next != "" ==> StepsDown(pool, model, next) && Below(pool, next) < Below(pool, model) && next != model
  {
    if ShedModel(model, pool, active) != "" {
      ShedStepsDown(pool, model, active);
      SheddingDescends(pool, model, ShedModel(model, pool, active));
    }
  }

  // --------------------------------------------------------------------
  // Streaming requests
  // --------------------------------------------------------------------

  /** An upstream response is a handle, named by the number of its send. */
  datatype HandleEvent = Opened(send: nat) | Closed(send: nat)

  datatype Handles = Idle(next: nat) | Holding(send: nat) | Leaked

  /** Replays opens and closes: at most one handle at a time, none opened twice, none closed twice. */
  function HandlesAfter(events: seq<HandleEvent>): Handles {
    if events == [] then Idle(0)
    else
      match (HandlesAfter(events[..|events| - 1]), events[|events| - 1])
      case (Idle(next), Opened(k)) => if k >= next then Holding(k) else Leaked
      case (Holding(open), Closed(k)) => if k == open then Idle(k + 1) else Leaked
      case (_, _) => Leaked
  }

  lemma HandlesStep(events: seq<HandleEvent>, e: HandleEvent)
    ensures HandlesAfter(events + [e]) ==
      match (HandlesAfter(events), e)
      case (Idle(next), Opened(k)) => if k >= next then Holding(k) else Leaked
      case (Holding(open), Closed(k)) => if k == open then Idle(k + 1) else Leaked
      case (_, _) => Leaked
  {
    assert (events + [e])[..|events|] == events;
  }

  lemma OpenThenClose(events: seq<HandleEvent>, k: nat)
    requires IdleBy(HandlesAfter(events), k)
    ensures HandlesAfter(events + [Opened(k)]) == Holding(k)
    ensures HandlesAfter(events + [Opened(k)] + [Closed(k)]) == Idle(k + 1)
  {
    HandlesStep(events, Opened(k));
    HandlesStep(events + [Opened(k)], Closed(k));
  }

  ghost predicate IdleBy(h: Handles, sent: nat) {
    h.Idle? && h.next <= sent
  }

  /** After trying a model: the handle of a final status is still open, nothing else is. */
  ghost predicate HoldsFinal(h: Handles, replies: seq<Reply>, sent: nat) {
    match LastReply(replies)
    case ConnectError => IdleBy(h, sent + |replies|)
    case Status(_) => h == Holding(sent + |replies| - 1)
  }

  datatype StreamOutcome = Streaming(send: nat) | Verbatim(code: int) | Unreachable

  lemma NothingAnswered(model: string, upstream: nat -> Reply, sent: nat)
    ensures Answered([], upstream, sent) && RecordsOf(model, []) == []
  {
  }

  lemma OneMoreReply(model: string, replies: seq<Reply>, r: Reply, upstream: nat -> Reply, sent: nat)
    requires Answered(replies, upstream, sent) && r == upstream(sent + |replies|)
    ensures Answered(replies + [r], upstream, sent)
    ensures RecordsOf(model, replies + [r]) == RecordsOf(model, replies) +
      (if r.Status? && IsRetryable(r.code, true) then [Recorded(model, r.code)] else [])
  {
    assert (replies + [r])[..|replies|] == replies;
  }

  method TryModelStream(model: string, maxRetries: int, upstream: nat -> Reply, sent: nat, events0: seq<HandleEvent>)
    returns (replies: seq<Reply>, records: seq<Recorded>, events: seq<HandleEvent>, resp: Option<nat>)
    requires IdleBy(HandlesAfter(events0), sent)
    ensures RetriedWell(replies, true, maxRetries) && Answered(replies, upstream, sent)
    ensures records == RecordsOf(model, replies)
    ensures HoldsFinal(HandlesAfter(events), replies, sent)
    ensures resp == if LastReply(replies).Status? then Some(sent + |replies| - 1) else None
  {
    hide HandlesAfter, Answered, RecordsOf;
    replies, records, events, resp := [], [], events0, None;
    NothingAnswered(model, upstream, sent);
    var attempt := 0;
    while attempt < maxRetries + 1
      invariant attempt == |replies| <= Attempts(maxRetries)
      invariant Answered(replies, upstream, sent) && records == RecordsOf(model, replies)
      invariant forall k :: 0 <= k < |replies| ==> Again(replies[k], true)
      invariant resp == None && IdleBy(HandlesAfter(events), sent + attempt)
      invariant attempt > maxRetries ==> replies == []
      decreases maxRetries + 1 - attempt
    {
      var r := upstream(sent + attempt);
      OneMoreReply(model, replies, r, upstream, sent);
      replies := replies + [r];
      match r {
        case ConnectError =>
          if attempt >= maxRetries { break; }
        case Status(code) =>
          resp := Some(sent + attempt);
          OpenThenClose(events, sent + attempt);
          events := events + [Opened(sent + attempt)];
          if code == 200 { break; }
          if IsRetryable(code, true) {
            records := records + [Recorded(model, code)];
            if attempt >= maxRetries { break; }
            events := events + [Closed(sent + attempt)];
            resp := None;
          } else {
            break;
          }
      }
      attempt := attempt + 1;
    }
  }

  /**
   * The outcome is decided before anything is streamed. Exactly one response is open at the end when
   * a 200 is streamed, and none otherwise.
   */
  method Stream(r: Request, c: Config, maxRetries: int, upstream: nat -> Reply, active: nat -> set<string>)
    returns (outcome: StreamOutcome, runs: seq<Run>, records: seq<Recorded>, events: seq<HandleEvent>, decisions: nat)
    requires DistinctIds(c.pool) && c.pool != []
    ensures runs != [] && ShedsFrom(r, c, DecideServed(r, c, active(0)), runs)
    ensures |runs| <= |c.pool| && Sends(runs) <= Attempts(maxRetries) * |c.pool|
    ensures RunsHonest(runs, r, true, maxRetries, upstream) && records == AllRecords(runs)
    ensures outcome == if Sends(runs) == 0 then Unreachable
                       else match upstream(Sends(runs) - 1) {
                              case ConnectError => Unreachable
                              case Status(code) => if code == 200 then Streaming(Sends(runs) - 1) else Verbatim(code)
                            }
    ensures var last := runs[|runs| - 1];
      && LastReply(last.replies) == (if Sends(runs) == 0 then ConnectError else upstream(Sends(runs) - 1))
      && StopsRightly(r, c, last.model, LastReply(last.replies), true, false, active(decisions))
    ensures if outcome.Streaming? then HandlesAfter(events) == Holding(outcome.send) && upstream(outcome.send) == Status(200)
            else HandlesAfter(events).Idle?
  {
    hide FallingLadder, StepsDown, ShedsFrom, RunsHonest, Below, DecideServed, ShedModel, RecordsOf, DistinctIds,
      RetriedWell, Answered, BodyFor, HandlesAfter, AboutToTry, Sends, AllRecords;
    var model := DecideServed(r, c, active(0));
    runs, records, events, decisions := [], [], [], 0;
    ghost var served := model;
    BelowIsProper(c.pool, model);
    NoRunsYet(r, c, served, maxRetries, upstream);
    FirstTry(r, c, served);
    NoEventsYet();
    var resp: Option<nat> := None;
    while true
      invariant AboutToTry(r, c, served, runs, model, false)
      invariant |runs| + Below(c.pool, model) + 1 <= |c.pool|
      invariant RunsHonest(runs, r, true, maxRetries, upstream) && records == AllRecords(runs)
      invariant resp == None && IdleBy(HandlesAfter(events), Sends(runs))
      decreases |c.pool| - |runs|
    {
      var replies, newRecords;
      replies, newRecords, events, resp := TryModelStream(model, maxRetries, upstream, Sends(runs), events);
      var run := Run(model, BodyFor(model, r), replies);
      OneMoreRun(runs, run, r, true, maxRetries, upstream);
      ExtendLadder(r, c, served, runs, run);
      CountOneMoreRun(runs, run);
      runs := runs + [run];
      records := records + newRecords;
      var reply := LastReply(replies);
      if reply == Status(200) {
        break;
      }
      if resp != None && !IsRetryable(reply.code, true) {
        break;
      }
      if (IsWork(r) || IsDeepseek(r, c)) && !IsClassifier(r, c) {
        break;
      }
      decisions := decisions + 1;
      var next := ShedModel(model, c.pool, active(decisions));
      ShedLands(c.pool, model, active(decisions));
      if next == "" || next == model {
        break;
      }
      if resp != None {
        HandlesStep(events, Closed(resp.value));
        events := events + [Closed(resp.value)];
        resp := None;
      }
      NextTry(r, c, served, runs, next);
      model := next;
    }
    SendsBounded(runs, r, true, maxRetries, upstream, |c.pool|);
    LastSendAnswered(runs, r, true, maxRetries, upstream);
    outcome, events := Surface(LastReply(runs[|runs| - 1].replies), resp, events);
  }

  /** Hands a committed 200 to the generator; any other status is read, closed and surfaced. */
  method Surface(reply: Reply, resp: Option<nat>, events0: seq<HandleEvent>)
    returns (outcome: StreamOutcome, events: seq<HandleEvent>)
    requires if reply.Status? then resp.Some? && HandlesAfter(events0) == Holding(resp.value)
             else HandlesAfter(events0).Idle?
    ensures outcome == match reply
                       case ConnectError => Unreachable
                       case Status(code) => if code == 200 then Streaming(resp.value) else Verbatim(code)
    ensures if outcome.Streaming? then HandlesAfter(events) == Holding(outcome.send) else HandlesAfter(events).Idle?
  {
    hide HandlesAfter;
    events := events0;
    match reply
    case ConnectError => outcome := Unreachable;
    case Status(code) =>
      if code == 200 {
        outcome := Streaming(resp.value);
      } else {
        HandlesStep(events, Closed(resp.value));
        events := events + [Closed(resp.value)];
        outcome := Verbatim(code);
      }
  }

  lemma NoEventsYet()
    ensures HandlesAfter([]) == Idle(0)
  {
  }

  // --------------------------------------------------------------------
  // Over a whole request
  // --------------------------------------------------------------------

  /** The same model is tried again after a lost connection, an overload status or an owned 429, and only then. */
  lemma RetriesAreTheTransientOnes(replies: seq<Reply>, owns429: bool, maxRetries: int, k: nat)
    requires RetriedWell(replies, owns429, maxRetries) && k < |replies|
    ensures k < maxRetries + 1
    ensures var transient := || replies[k].ConnectError?
                             || replies[k].code in {500, 502, 503, 529}
                             || (owns429 && replies[k].code == 429);
            && (k < |replies| - 1 ==> transient)
            && (k == |replies| - 1 && transient ==> |replies| == maxRetries + 1)
  {
  }

  /** The model a body asks upstream for. */
  function AsksFor(body: Body, r: Request): string {
    match body
    case Original => r.requested
    case Rewritten(model) => model
  }

  /** Every run asks upstream for its own model, and a run of the requested model sends the original bytes. */
  lemma BodiesNameTheirModels(runs: seq<Run>, r: Request, owns429: bool, maxRetries: int, upstream: nat -> Reply,
                              i: nat)
    requires RunsHonest(runs, r, owns429, maxRetries, upstream) && i < |runs|
    ensures r.hasBody && runs[i].model != "" ==> AsksFor(runs[i].body, r) == runs[i].model
    ensures !r.hasBody || runs[i].model in {"", r.requested} ==> runs[i].body == Original
  {
    assert RunHonest(runs, i, r, owns429, maxRetries, upstream);
  }

  /** The overload statuses and 429s among the first sends, in order. */
  function FailingCodes(upstream: nat -> Reply, sends: nat): seq<int> {
    if sends == 0 then []
    else
      FailingCodes(upstream, sends - 1)
      + match upstream(sends - 1) {
          case ConnectError => []
          case Status(code) => if code in {429, 500, 502, 503, 529} then [code] else []
        }
  }

  function Codes(records: seq<Recorded>): (codes: seq<int>)
    ensures |codes| == |records|
  {
    seq(|records|, i requires 0 <= i < |records| => records[i].code)
  }

  lemma CodesConcat(a: seq<Recorded>, b: seq<Recorded>)
    ensures Codes(a + b) == Codes(a) + Codes(b)
  {
  }

  lemma {:induction false} RunRecords(model: string, replies: seq<Reply>, upstream: nat -> Reply, sent: nat)
    requires Answered(replies, upstream, sent)
    ensures FailingCodes(upstream, sent + |replies|) == FailingCodes(upstream, sent) + Codes(RecordsOf(model, replies))
  {
    if replies == [] {
    } else {
      var n := |replies| - 1;
      RunRecords(model, replies[..n], upstream, sent);
      assert replies[n] == upstream(sent + n);
      if replies[n].Status? && replies[n].code in {429, 500, 502, 503, 529} {
        CodesConcat(RecordsOf(model, replies[..n]), [Recorded(model, replies[n].code)]);
        assert Codes([Recorded(model, replies[n].code)]) == [replies[n].code];
      }
    }
  }

  /** Conservation: what is recorded is every overload status and 429 that upstream gave, once and in order. */
  lemma {:induction false} EveryFailureIsRecorded(
    runs: seq<Run>, r: Request, owns429: bool, maxRetries: int, upstream: nat -> Reply)
    requires RunsHonest(runs, r, owns429, maxRetries, upstream)
    ensures Codes(AllRecords(runs)) == FailingCodes(upstream, Sends(runs))
  {
    hide RunsHonest, RetriedWell, RecordsOf, FailingCodes, Codes, Answered;
    if runs == [] {
      assert Codes([]) == FailingCodes(upstream, 0) by { NothingFailed(upstream); }
    } else {
      var n := |runs| - 1;
      AllButTheLast(runs, r, owns429, maxRetries, upstream);
      EveryFailureIsRecorded(runs[..n], r, owns429, maxRetries, upstream);
      RunRecords(runs[n].model, runs[n].replies, upstream, Sends(runs[..n]));
      CodesConcat(AllRecords(runs[..n]), RecordsOf(runs[n].model, runs[n].replies));
    }
  }

  lemma NothingFailed(upstream: nat -> Reply)
    ensures Codes([]) == FailingCodes(upstream, 0) == []
  {
  }

  /** A failure is recorded against a model that was tried and got it. */
  lemma {:induction false} RecordsNameTheirModel(runs: seq<Run>, rec: Recorded)
    requires rec in AllRecords(runs)
    ensures exists run :: run in runs && run.model == rec.model && Status(rec.code) in run.replies
  {
    hide RecordsOf;
    var n := |runs| - 1;
    assert runs[n] in runs;
    if rec in AllRecords(runs[..n]) {
      RecordsNameTheirModel(runs[..n], rec);
      var run :| run in runs[..n] && run.model == rec.model && Status(rec.code) in run.replies;
      assert run in runs;
    } else {
      RecordIsAReply(runs[n].model, runs[n].replies, rec);
    }
  }

  lemma {:induction false} RecordIsAReply(model: string, replies: seq<Reply>, rec: Recorded)
    requires rec in RecordsOf(model, replies)
    ensures rec.model == model && Status(rec.code) in replies
  {
    var n := |replies| - 1;
    if rec in RecordsOf(model, replies[..n]) {
      RecordIsAReply(model, replies[..n], rec);
    } else {
      assert replies[n] in replies;
    }
  }

  /** Outside deepseek sessions no model is ever tried that costs more than what was asked for. */
  lemma NonStreamNeverDearer(r: Request, c: Config, active: set<string>, runs: seq<Run>, reverted: bool, i: nat)
    requires DistinctIds(c.pool) && !IsDeepseek(r, c)
    requires NonStreamShape(r, c, DecideServed(r, c, active), runs, reverted) && i < |runs|
    ensures NeverDearer(c.pool, r.requested, runs[i].model)
  {
    DecisionNeverDearer(r, c, active);
    if !reverted {
      LadderNeverDearer(c.pool, r.requested, runs, i);
    } else if i < |runs| - 1 {
      LadderNeverDearer(c.pool, r.requested, runs[..|runs| - 1], i);
    }
  }

  lemma StreamNeverDearer(r: Request, c: Config, active: set<string>, runs: seq<Run>, i: nat)
    requires DistinctIds(c.pool) && !IsDeepseek(r, c)
    requires ShedsFrom(r, c, DecideServed(r, c, active), runs) && i < |runs|
    ensures NeverDearer(c.pool, r.requested, runs[i].model)
  {
    DecisionNeverDearer(r, c, active);
    LadderNeverDearer(c.pool, r.requested, runs, i);
  }

  /** Models are shed in strictly falling cost, so none is tried twice on the way down. */
  lemma {:induction false} LadderCostsFall(pool: Pool, runs: seq<Run>, i: nat, j: nat)
    requires DistinctIds(pool) && FallingLadder(pool, runs) && i < j < |runs|
    ensures Find(pool, runs[i].model).Some? && Find(pool, runs[j].model).Some?
    ensures Find(pool, runs[j].model).value.cost < Find(pool, runs[i].model).value.cost
    ensures runs[i].model != runs[j].model
    decreases j
  {
    assert StepsDown(pool, runs[j - 1].model, runs[j].model);
    var m :| m in pool && m.id == runs[j].model && m.cost < Find(pool, runs[j - 1].model).value.cost;
    FindExact(pool, m);
    if i < j - 1 {
      LadderCostsFall(pool, runs, i, j - 1);
    }
  }

  /**
   * A work session's own turn, streamed or not, tries the model it asked for and no other, and sends the
   * original bytes.
   */
  lemma WorkTurnsSendOriginalBytes(r: Request, c: Config, active: set<string>, runs: seq<Run>, reverted: bool,
                                   owns429: bool, maxRetries: int, upstream: nat -> Reply)
    requires IsWork(r) && !IsClassifier(r, c) && !IsDeepseek(r, c) && runs != []
    requires NonStreamShape(r, c, DecideServed(r, c, active), runs, reverted) || ShedsFrom(r, c, DecideServed(r, c, active), runs)
    requires RunsHonest(runs, r, owns429, maxRetries, upstream)
    ensures |runs| == 1 && runs[0].model == r.requested && runs[0].body == Original
  {
    WorkIsNotBackground(r);
    assert RunHonest(runs, 0, r, owns429, maxRetries, upstream);
  }

  /** A deepseek session tries its forced model and nothing else; the ladder is never consulted. */
  lemma DeepseekNeverLeavesItsModel(r: Request, c: Config, active: set<string>, runs: seq<Run>, reverted: bool)
    requires IsDeepseek(r, c) && runs != []
    requires NonStreamShape(r, c, DecideServed(r, c, active), runs, reverted) || ShedsFrom(r, c, DecideServed(r, c, active), runs)
    ensures |runs| == 1 && runs[0].model == c.deepseekModel
  {
  }
}
