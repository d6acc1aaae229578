/**
 * How a subtask's goal text is rewritten (agent-runner/conductor.py: the upstream section of
 * `execute_dag`, the feedback section of `run_and_verify`, `_dep_context`, `_subtask_goal`).
 */
module GoalText {
  import Text

  const UPSTREAM := "\n\n[Upstream context]"
  const FEEDBACK := "\n\n[Verification feedback]"
  const FEEDBACK_MAX := 800
  const HANDOFF_MAX := 8000
  const MISSION_GOAL_MAX := 12000

  // --------------------------------------------------------------------
  // The two rewrites
  // --------------------------------------------------------------------

  /** Before a dispatch with dependencies: the upstream section is replaced, and all that followed it. */
  function WithUpstream(goal: string, context: string): string {
    Text.Before(goal, UPSTREAM) + UPSTREAM + ("\n" + context)
  }

  /** After a failed round: the feedback section is replaced, and all that followed it. */
  function WithFeedback(goal: string, findings: string): string {
    Text.Before(goal, FEEDBACK) + FEEDBACK + ("\n" + Cut(findings, FEEDBACK_MAX))
  }

  function Cut(s: string, n: nat): string {
    if |s| > n then s[..n] else s
  }

  datatype Rewrite = Dispatched(context: string) | Failed(findings: string)

  function Rewritten(goal: string, r: Rewrite): string {
    match r
    case Dispatched(context) => WithUpstream(goal, context)
    case Failed(findings) => WithFeedback(goal, findings)
  }

  function RewrittenAll(goal: string, rs: seq<Rewrite>): string {
    if rs == [] then goal else Rewritten(RewrittenAll(goal, rs[..|rs| - 1]), rs[|rs| - 1])
  }

  // --------------------------------------------------------------------
  // Marks
  // --------------------------------------------------------------------

  /** A mark starts a new paragraph with a bracket and has no further line break. */
  predicate IsMark(m: string) {
    && |m| > 3 && m[0] == '\n' && m[1] == '\n' && m[2] == '['
    && forall k :: 2 <= k < |m| ==> m[k] != '\n'
  }

  predicate StartsWith(s: string, part: string) {
    |part| <= |s| && s[..|part|] == part
  }

  /** Empty, or a section with one of the two marks. */
  predicate Sections(t: string) {
    t == "" || StartsWith(t, UPSTREAM) || StartsWith(t, FEEDBACK)
  }

  predicate Unmarked(planned: string) {
    !Text.Contains(planned, UPSTREAM) && !Text.Contains(planned, FEEDBACK)
  }

  lemma TheMarks()
    ensures IsMark(UPSTREAM) && IsMark(FEEDBACK) && UPSTREAM[3] != FEEDBACK[3]
  {
  }

  lemma SectionsStart(t: string)
    requires Sections(t) && t != ""
    ensures |t| > 3 && t[0] == '\n' && t[1] == '\n' && t[2] == '['
  {
    hide Text.Before;
    var m := if StartsWith(t, UPSTREAM) then UPSTREAM else FEEDBACK;
    TheMarks();
    assert t[..|m|] == m;
    assert t[0] == t[..|m|][0] && t[1] == t[..|m|][1] && t[2] == t[..|m|][2];
  }

  /** No mark begins in the planned text, not even one that runs over its end. */
  lemma NoneInPlan(planned: string, t: string, m: string, i: nat)
    requires IsMark(m) && !Text.Contains(planned, m) && Sections(t) && i < |planned|
    ensures !Text.OccursAt(planned + t, m, i)
  {
    var s, j := planned + t, |planned| - i;
    if |m| <= j {
      assert !Text.OccursAt(planned, m, i);
      assert s[i..i + |m|] == planned[i..i + |m|];
    } else if t != "" {
      SectionsStart(t);
      if j == 1 {
        assert s[i + 2] == t[1];
        Text.DiffersAt(s, m, i, 2);
      } else {
        assert s[i + j] == t[0];
        Text.DiffersAt(s, m, i, j);
      }
    }
  }

  /** The first mark of a kind is where its section begins. */
  lemma FirstMark(planned: string, t: string, m: string)
    requires IsMark(m) && !Text.Contains(planned, m) && Sections(t) && StartsWith(t, m)
    ensures Text.Before(planned + t, m) == planned
  {
    var s := planned + t;
    forall i | 0 <= i < |planned| ensures !Text.OccursAt(s, m, i) {
      NoneInPlan(planned, t, m, i);
    }
    assert s[|planned|..|planned| + |m|] == t[..|m|];
    assert Text.OccursAt(s, m, |planned|);
    assert s[..|planned|] == planned;
  }

  /** A mark of the other kind is found, if at all, after the first mark. */
  lemma OtherMarkIsLater(planned: string, first: string, rest: string, m: string, i: nat)
    requires IsMark(first) && IsMark(m) && first[3] != m[3] && !Text.Contains(planned, m) && Sections(first + rest)
    requires i < |planned| + |first|
    ensures !Text.OccursAt(planned + (first + rest), m, i)
  {
    var s := planned + (first + rest);
    if i < |planned| {
      NoneInPlan(planned, first + rest, m, i);
    } else {
      var o := i - |planned|;
      assert s[i] == first[o];
      if o == 0 {
        assert s[i + 3] == first[3];
        Text.DiffersAt(s, m, i, 3);
      } else if o == 1 {
        assert s[i + 1] == first[2];
        Text.DiffersAt(s, m, i, 1);
      } else {
        Text.DiffersAt(s, m, i, 0);
      }
    }
  }

  // --------------------------------------------------------------------
  // The shapes a goal can take
  // --------------------------------------------------------------------

  /** What follows a mark: at most `n` characters. */
  ghost predicate Fits(body: string, n: nat) {
    |body| <= n
  }

  ghost predicate JustUpstream(planned: string, n: nat, g: string) {
    exists u :: Fits(u, n) && g == planned + (UPSTREAM + u)
  }

  ghost predicate UpstreamThenFeedback(planned: string, n: nat, g: string) {
    exists u, f :: Fits(u, n) && Fits(f, n) && g == planned + (UPSTREAM + (u + FEEDBACK + f))
  }

  ghost predicate FeedbackThenUpstream(planned: string, n: nat, g: string) {
    exists f, u :: Fits(f, n) && Fits(u, n) && !HasBreak(f) && g == planned + (FEEDBACK + (f + UPSTREAM + u))
  }

  /** A line break after the first character: what a mark would need. */
  predicate HasBreak(f: string) {
    exists k :: 1 <= k < |f| && f[k] == '\n'
  }

  ghost predicate FeedbackAlone(planned: string, n: nat, g: string) {
    exists f :: Fits(f, n) && !HasBreak(f) && g == planned + (FEEDBACK + f)
  }

  /** The planned goal and at most one section of each kind, none longer than `n`. */
  ghost predicate Shaped(planned: string, n: nat, g: string) {
    || g == planned
    || JustUpstream(planned, n, g)
    || FeedbackAlone(planned, n, g)
    || UpstreamThenFeedback(planned, n, g)
    || FeedbackThenUpstream(planned, n, g)
  }

  /** The first section is an upstream section. */
  predicate UpstreamFirst(planned: string, g: string) {
    planned + UPSTREAM <= g
  }

  lemma AfterUpstream(planned: string, g: string) returns (rest: string)
    requires UpstreamFirst(planned, g)
    ensures g == planned + (UPSTREAM + rest)
  {
    rest := g[|planned| + |UPSTREAM|..];
  }

  lemma UpstreamReplaced(planned: string, rest: string)
    requires Unmarked(planned)
    ensures Text.Before(planned + (UPSTREAM + rest), UPSTREAM) == planned
  {
    hide Text.Before;
    TheMarks();
    assert (UPSTREAM + rest)[..|UPSTREAM|] == UPSTREAM;
    FirstMark(planned, UPSTREAM + rest, UPSTREAM);
  }

  lemma FeedbackReplaced(planned: string, rest: string)
    requires Unmarked(planned)
    ensures Text.Before(planned + (FEEDBACK + rest), FEEDBACK) == planned
  {
    hide Text.Before;
    TheMarks();
    assert (FEEDBACK + rest)[..|FEEDBACK|] == FEEDBACK;
    FirstMark(planned, FEEDBACK + rest, FEEDBACK);
  }

  /** Cutting at a feedback mark keeps the plan, the upstream mark, and a beginning of what follows it. */
  lemma CutAfterUpstream(planned: string, rest: string)
    requires Unmarked(planned)
    ensures var g := planned + (UPSTREAM + rest);
            exists k :: 0 <= k <= |rest| && Text.Before(g, FEEDBACK) == planned + (UPSTREAM + rest[..k])
              && forall j :: 0 <= j <= |rest| && StartsWith(rest[j..], FEEDBACK) ==> k <= j
  {
    TheMarks();
    assert (UPSTREAM + rest)[..|UPSTREAM|] == UPSTREAM;
    var g, base := planned + (UPSTREAM + rest), |planned| + |UPSTREAM|;
    var at := Text.Find(g, FEEDBACK);
    forall j | 0 <= j <= |rest| && StartsWith(rest[j..], FEEDBACK) ensures Text.OccursAt(g, FEEDBACK, base + j) {
      assert g[base + j..base + j + |FEEDBACK|] == rest[j..][..|FEEDBACK|];
    }
    if at == -1 {
      assert rest[..|rest|] == rest;
    } else {
      forall i: nat | i < base ensures !Text.OccursAt(g, FEEDBACK, i) {
        OtherMarkIsLater(planned, UPSTREAM, rest, FEEDBACK, i);
      }
      assert g[..at] == planned + (UPSTREAM + rest[..at - base]);
    }
  }

  /** Feedback without line breaks hides no upstream mark: cutting at one cuts after the feedback. */
  lemma CutAfterFeedback(planned: string, f: string, rest: string)
    requires Unmarked(planned) && !HasBreak(f) && (rest == "" || StartsWith(rest, UPSTREAM))
    ensures Text.Before(planned + (FEEDBACK + (f + rest)), UPSTREAM) == planned + (FEEDBACK + f)
  {
    TheMarks();
    var tail := f + rest;
    assert (FEEDBACK + tail)[..|FEEDBACK|] == FEEDBACK;
    var g, base := planned + (FEEDBACK + tail), |planned| + |FEEDBACK|;
    assert g[..base + |f|] == planned + (FEEDBACK + f);
    forall i | 0 <= i < base + |f| ensures !Text.OccursAt(g, UPSTREAM, i) {
      if i < base {
        OtherMarkIsLater(planned, FEEDBACK, tail, UPSTREAM, i);
      } else {
        NoMarkInFeedback(planned, f, rest, i);
      }
    }
    if rest != "" {
      assert g[base + |f|..base + |f| + |UPSTREAM|] == rest[..|UPSTREAM|];
      assert Text.OccursAt(g, UPSTREAM, base + |f|);
    } else {
      assert g == planned + (FEEDBACK + f);
      assert forall i :: base + |f| <= i ==> !Text.OccursAt(g, UPSTREAM, i);
    }
  }

  lemma NoMarkInFeedback(planned: string, f: string, rest: string, i: nat)
    requires !HasBreak(f) && (rest == "" || StartsWith(rest, UPSTREAM))
    requires |planned| + |FEEDBACK| <= i < |planned| + |FEEDBACK| + |f|
    ensures !Text.OccursAt(planned + (FEEDBACK + (f + rest)), UPSTREAM, i)
  {
    TheMarks();
    var g := planned + (FEEDBACK + (f + rest));
    var o := i - |planned| - |FEEDBACK|;
    assert g[i] == f[o];
    if o > 0 {
      Text.DiffersAt(g, UPSTREAM, i, 0);
    } else if o + 1 < |f| {
      assert g[i + 1] == f[o + 1];
      Text.DiffersAt(g, UPSTREAM, i, 1);
    } else if rest != "" {
      SectionsStart(rest);
      assert g[i + 2] == rest[1];
      Text.DiffersAt(g, UPSTREAM, i, 2);
    }
  }

  // --------------------------------------------------------------------
  // Rewriting never accumulates
  // --------------------------------------------------------------------

  /** The findings are JSON on one line; the sections stay within `n`. */
  predicate Bounded(r: Rewrite, n: nat) {
    match r
    case Dispatched(context) => |context| < n
    case Failed(findings) => FEEDBACK_MAX < n && '\n' !in findings
  }

  lemma OneLine(findings: string)
    requires '\n' !in findings
    ensures var f := "\n" + Cut(findings, FEEDBACK_MAX); !HasBreak(f) && |f| <= FEEDBACK_MAX + 1
  {
    var f := "\n" + Cut(findings, FEEDBACK_MAX);
    forall k | 1 <= k < |f| ensures f[k] != '\n' {
      assert f[k] == findings[k - 1];
    }
  }

  lemma NoMarkNoCut(planned: string, m: string)
    requires !Text.Contains(planned, m)
    ensures Text.Before(planned, m) == planned
  {
  }

  /** Upstream context written after feedback keeps the feedback. */
  lemma UpstreamAfterFeedback(planned: string, f: string, rest: string, context: string)
    requires Unmarked(planned) && !HasBreak(f) && (rest == "" || StartsWith(rest, UPSTREAM))
    ensures WithUpstream(planned + (FEEDBACK + (f + rest)), context)
         == planned + (FEEDBACK + (f + UPSTREAM + ("\n" + context)))
  {
    hide Text.Before, Unmarked, HasBreak, StartsWith;
    CutAfterFeedback(planned, f, rest);
    Regroup(planned, FEEDBACK, f, UPSTREAM, "\n" + context);
  }

  /** Upstream context replaces everything from the first mark, when that is an upstream mark. */
  lemma UpstreamAfterUpstream(planned: string, g: string, context: string)
    requires Unmarked(planned) && (g == planned || UpstreamFirst(planned, g))
    ensures WithUpstream(g, context) == planned + (UPSTREAM + ("\n" + context))
  {
    hide Text.Before, Unmarked;
    if g == planned {
      PlanUncut(planned);
    } else {
      var rest := AfterUpstream(planned, g);
      UpstreamReplaced(planned, rest);
    }
    assert planned + UPSTREAM + ("\n" + context) == planned + (UPSTREAM + ("\n" + context));
  }

  lemma DispatchKeepsShape(planned: string, n: nat, g: string, context: string)
    requires Unmarked(planned) && Shaped(planned, n, g) && |context| < n
    ensures Shaped(planned, n, WithUpstream(g, context))
  {
    hide Unmarked, HasBreak, WithUpstream;
    var u := "\n" + context;
    assert Fits(u, n);
    if FeedbackAlone(planned, n, g) {
      var f :| Fits(f, n) && !HasBreak(f) && g == planned + (FEEDBACK + f);
      assert f + "" == f;
      UpstreamAfterFeedback(planned, f, "", context);
      assert FeedbackThenUpstream(planned, n, WithUpstream(g, context));
    } else if FeedbackThenUpstream(planned, n, g) {
      var f, w :| Fits(f, n) && Fits(w, n) && !HasBreak(f) && g == planned + (FEEDBACK + (f + UPSTREAM + w));
      assert f + UPSTREAM + w == f + (UPSTREAM + w);
      assert (UPSTREAM + w)[..|UPSTREAM|] == UPSTREAM;
      UpstreamAfterFeedback(planned, f, UPSTREAM + w, context);
      assert FeedbackThenUpstream(planned, n, WithUpstream(g, context));
    } else {
      if g != planned {
        ShapedStarts(planned, n, g);
      }
      UpstreamAfterUpstream(planned, g, context);
      assert JustUpstream(planned, n, WithUpstream(g, context));
    }
  }

  lemma PlanUncut(planned: string)
    requires Unmarked(planned)
    ensures Text.Before(planned, UPSTREAM) == planned && Text.Before(planned, FEEDBACK) == planned
  {
    NoMarkNoCut(planned, UPSTREAM);
    NoMarkNoCut(planned, FEEDBACK);
  }

  /** A shaped goal that is not the plan starts, after the plan, with one of the two marks. */
  lemma ShapedStarts(planned: string, n: nat, g: string)
    requires Shaped(planned, n, g) && g != planned
    ensures if FeedbackAlone(planned, n, g) || FeedbackThenUpstream(planned, n, g)
            then exists rest :: g == planned + (FEEDBACK + rest) else UpstreamFirst(planned, g)
  {
  }

  lemma FailureKeepsShape(planned: string, n: nat, g: string, findings: string)
    requires Unmarked(planned) && Shaped(planned, n, g) && FEEDBACK_MAX < n && '\n' !in findings
    ensures Shaped(planned, n, WithFeedback(g, findings))
  {
    hide Text.Before, Text.Contains, HasBreak;
    var f := "\n" + Cut(findings, FEEDBACK_MAX);
    OneLine(findings);
    assert Fits(f, n);
    if g == planned {
      PlanUncut(planned);
      assert WithFeedback(g, findings) == planned + (FEEDBACK + f);
      assert FeedbackAlone(planned, n, WithFeedback(g, findings));
    } else if JustUpstream(planned, n, g) {
      var u :| Fits(u, n) && g == planned + (UPSTREAM + u);
      FeedbackAfterUpstream(planned, n, u, |u|, findings);
      assert u[..|u|] == u;
    } else if UpstreamThenFeedback(planned, n, g) {
      var u, w :| Fits(u, n) && Fits(w, n) && g == planned + (UPSTREAM + (u + FEEDBACK + w));
      assert (u + FEEDBACK + w)[|u|..][..|FEEDBACK|] == FEEDBACK;
      FeedbackAfterUpstream(planned, n, u + FEEDBACK + w, |u|, findings);
    } else {
      ShapedStarts(planned, n, g);
      var rest :| g == planned + (FEEDBACK + rest);
      FeedbackReplaced(planned, rest);
      assert WithFeedback(g, findings) == planned + (FEEDBACK + f);
      assert FeedbackAlone(planned, n, WithFeedback(g, findings));
    }
  }

  /** Feedback written after an upstream section keeps at most that section. */
  lemma FeedbackAfterUpstream(planned: string, n: nat, rest: string, len: nat, findings: string)
    requires Unmarked(planned) && len <= |rest| && len <= n && FEEDBACK_MAX < n && '\n' !in findings
    requires len == |rest| || StartsWith(rest[len..], FEEDBACK)
    ensures UpstreamThenFeedback(planned, n, WithFeedback(planned + (UPSTREAM + rest), findings))
  {
    hide Text.Before, Text.Contains, HasBreak;
    var g, f := planned + (UPSTREAM + rest), "\n" + Cut(findings, FEEDBACK_MAX);
    OneLine(findings);
    CutAfterUpstream(planned, rest);
    var k :| 0 <= k <= |rest| && Text.Before(g, FEEDBACK) == planned + (UPSTREAM + rest[..k])
      && forall j :: 0 <= j <= |rest| && StartsWith(rest[j..], FEEDBACK) ==> k <= j;
    assert k <= len;
    assert Fits(rest[..k], n) && Fits(f, n);
    Regroup(planned, UPSTREAM, rest[..k], FEEDBACK, f);
    assert WithFeedback(g, findings) == planned + (UPSTREAM + (rest[..k] + FEEDBACK + f));
  }

  lemma Regroup(a: string, b: string, c: string, d: string, e: string)
    ensures a + (b + c) + d + e == a + (b + (c + d + e))
  {
  }

  /**
   * After any number of dispatches and failed rounds, the goal is the planned goal followed by at most one
   * section of each kind, each of bounded length, for planned goals without the marks.
   */
  lemma {:induction false} GoalsNeverAccumulate(planned: string, rs: seq<Rewrite>, n: nat)
    requires Unmarked(planned) && forall r :: r in rs ==> Bounded(r, n)
    ensures Shaped(planned, n, RewrittenAll(planned, rs))
  {
    hide Shaped, Text.Before, Text.Contains, Unmarked, WithUpstream, WithFeedback;
    if rs == [] {
      PlanIsShaped(planned, n);
    } else {
      var before, r := rs[..|rs| - 1], rs[|rs| - 1];
      GoalsNeverAccumulate(planned, before, n);
      assert r in rs && Bounded(r, n);
      match r
      case Dispatched(context) => DispatchKeepsShape(planned, n, RewrittenAll(planned, before), context);
      case Failed(findings) => FailureKeepsShape(planned, n, RewrittenAll(planned, before), findings);
    }
  }

  lemma PlanIsShaped(planned: string, n: nat)
    ensures Shaped(planned, n, planned)
  {
  }

  /** So the plan is never cut into, and the goal never outgrows two sections. */
  lemma ShapedIsBounded(planned: string, n: nat, g: string)
    requires Shaped(planned, n, g)
    ensures planned <= g && |g| <= |planned| + |UPSTREAM| + |FEEDBACK| + 2 * n
  {
  }

  /**
   * What a failed round tells a subtask with dependencies. The next dispatch keeps the feedback exactly
   * when the goal had no upstream section, or had it after older feedback; where the upstream section came
   * first, as it does once the subtask was dispatched, the feedback is cut off before anyone reads it.
   */
  lemma FeedbackSurvivesRedispatch(planned: string, n: nat, g: string, findings: string, context: string)
    requires Unmarked(planned) && Shaped(planned, n, g)
    requires FEEDBACK_MAX < n && '\n' !in findings && |context| < n
    ensures var next := WithUpstream(WithFeedback(g, findings), context);
            if UpstreamFirst(planned, g) then next == planned + (UPSTREAM + ("\n" + context))
            else next == planned + (FEEDBACK + (("\n" + Cut(findings, FEEDBACK_MAX)) + UPSTREAM + ("\n" + context)))
  {
    hide Text.Before, Text.Contains, HasBreak;
    var f, u := "\n" + Cut(findings, FEEDBACK_MAX), "\n" + context;
    OneLine(findings);
    if UpstreamFirst(planned, g) {
      var rest := AfterUpstream(planned, g);
      CutAfterUpstream(planned, rest);
      var k :| 0 <= k <= |rest| && Text.Before(g, FEEDBACK) == planned + (UPSTREAM + rest[..k])
        && forall j :: 0 <= j <= |rest| && StartsWith(rest[j..], FEEDBACK) ==> k <= j;
      var later := rest[..k] + FEEDBACK + f;
      Regroup(planned, UPSTREAM, rest[..k], FEEDBACK, f);
      assert WithFeedback(g, findings) == planned + (UPSTREAM + later);
      UpstreamReplaced(planned, later);
    } else {
      if g == planned {
        PlanUncut(planned);
      } else {
        ShapedStarts(planned, n, g);
        var rest :| g == planned + (FEEDBACK + rest);
        FeedbackReplaced(planned, rest);
      }
      assert f + "" == f;
      assert WithFeedback(g, findings) == planned + (FEEDBACK + (f + ""));
      CutAfterFeedback(planned, f, "");
    }
  }

  // --------------------------------------------------------------------
  // What goes into an upstream section
  // --------------------------------------------------------------------

  predicate IsBlank(s: string) {
    forall c :: c in s ==> c in {' ', '\t', '\n', '\r', '\U{0B}', '\U{0C}'}
  }

  /** The fields of a worker's result that are text. */
  datatype Result = Result(handoff: string, fullOutput: string, summary: string)

  const NOTHING := "(no handoff recorded)"

  /** The beginning of `s`, as much of it as fits. */
  predicate IsHead(text: string, s: string) {
    text <= s && (|text| == |s| || |text| == HANDOFF_MAX)
  }

  /** A dependency's text: the head of its richest field that is not blank. */
  function DepContext(r: Result): (text: string)
    ensures |text| <= HANDOFF_MAX
    ensures !IsBlank(r.handoff) ==> IsHead(text, r.handoff)
    ensures IsBlank(r.handoff) && !IsBlank(r.fullOutput) ==> IsHead(text, r.fullOutput)
    ensures IsBlank(r.handoff) && IsBlank(r.fullOutput) && !IsBlank(r.summary) ==> IsHead(text, r.summary)
    ensures IsBlank(r.handoff) && IsBlank(r.fullOutput) && IsBlank(r.summary) ==> text == NOTHING
  {
    if !IsBlank(r.handoff) then Cut(r.handoff, HANDOFF_MAX)
    else if !IsBlank(r.fullOutput) then Cut(r.fullOutput, HANDOFF_MAX)
    else if !IsBlank(r.summary) then Cut(r.summary, HANDOFF_MAX)
    else NOTHING
  }

  function Paragraph(key: string, r: Result): string {
    "### " + key + "\n" + DepContext(r)
  }

  /** The dependencies' paragraphs, joined by blank lines. */
  function Context(deps: seq<(string, Result)>): string {
    if deps == [] then ""
    else if |deps| == 1 then Paragraph(deps[0].0, deps[0].1)
    else Context(deps[..|deps| - 1]) + "\n\n" + Paragraph(deps[|deps| - 1].0, deps[|deps| - 1].1)
  }

  lemma ParagraphIsBounded(key: string, r: Result)
    ensures |Paragraph(key, r)| <= HANDOFF_MAX + |key| + 5
  {
    hide DepContext;
  }

  lemma OneMore(n: nat, b: nat)
    ensures (n + 1) * b == n * b + b
  {
  }

  /** An upstream section is bounded by the number of dependencies, whatever their workers wrote. */
  lemma {:induction false} ContextIsBounded(deps: seq<(string, Result)>, keyMax: nat)
    requires forall d :: d in deps ==> |d.0| <= keyMax
    ensures |Context(deps)| <= |deps| * (HANDOFF_MAX + keyMax + 7)
  {
    hide Paragraph;
    if deps == [] {
    } else {
      var init, last := deps[..|deps| - 1], deps[|deps| - 1];
      assert last in deps && forall d :: d in init ==> d in deps;
      ParagraphIsBounded(last.0, last.1);
      OneMore(|init|, HANDOFF_MAX + keyMax + 7);
      if |deps| > 1 {
        ContextIsBounded(init, keyMax);
      }
    }
  }

  /** Two parts, with a blank line between them when both are there. */
  function Joined(a: string, b: string, both: bool): string {
    if both then a + "\n\n" + b else a + b
  }

  lemma ContextLast(deps: seq<(string, Result)>)
    requires deps != []
    ensures var n := |deps| - 1;
            Context(deps) == Joined(Context(deps[..n]), Paragraph(deps[n].0, deps[n].1), n > 0)
  {
    hide Paragraph;
  }

  lemma {:induction false} ContextSplits(deps: seq<(string, Result)>, i: nat)
    requires i < |deps|
    ensures Context(deps) ==
            Joined(Context(deps[..i]),
                   Joined(Paragraph(deps[i].0, deps[i].1), Context(deps[i + 1..]), i < |deps| - 1),
                   i > 0)
    decreases |deps|
  {
    hide Paragraph, Context;
    var n := |deps| - 1;
    ContextLast(deps);
    if i == n {
      NoContext();
      assert deps[i + 1..] == [];
    } else {
      var init, rest := deps[..n], deps[i + 1..];
      ContextSplits(init, i);
      assert init[..i] == deps[..i] && init[i] == deps[i];
      ContextLast(rest);
      assert rest[|rest| - 1] == deps[n];
      assert rest[..|rest| - 1] == init[i + 1..];
      if i == n - 1 {
        NoContext();
        assert init[i + 1..] == [];
      }
    }
  }

  lemma NoContext()
    ensures Context([]) == ""
  {
  }

  /** Every dependency's handoff is in the section under its key, in order, set off by blank lines. */
  lemma ContextHoldsEveryHandoff(deps: seq<(string, Result)>, i: nat)
    requires i < |deps|
    ensures Context(deps) ==
            Joined(Context(deps[..i]),
                   Joined("### " + deps[i].0 + "\n" + DepContext(deps[i].1), Context(deps[i + 1..]), i < |deps| - 1),
                   i > 0)
  {
    hide Context, DepContext, Joined;
    ContextSplits(deps, i);
  }

  // --------------------------------------------------------------------
  // The mission goal inside a planned goal
  // --------------------------------------------------------------------

  const MISSION_HEADER := "\n\n[Mission goal \U{2014} AUTHORITATIVE. The framing above is a planner paraphrase; "
                          + "exact names, schemas, file targets and prohibitions below override it.]\n"

  predicate BlankAt(s: string, i: nat) {
    i < |s| && IsBlank([s[i]])
  }

  /** Python's `strip`. */
  function Strip(s: string): string
    decreases |s|
  {
    if BlankAt(s, 0) then Strip(s[1..])
    else if |s| > 0 && BlankAt(s, |s| - 1) then Strip(s[..|s| - 1])
    else s
  }

  /** The planner's framing plus the mission goal word for word, unless it is in there already. */
  function SubtaskGoal(planned: string, mission: string): string {
    if mission == "" || Text.Contains(Strip(planned), Strip(mission)) then planned
    else planned + MISSION_HEADER + Cut(mission, MISSION_GOAL_MAX)
  }

  lemma SliceOfSlice(s: string, i: nat, j: nat, a: nat, b: nat)
    requires i <= j <= |s| && a <= b <= j - i
    ensures s[i..j][a..b] == s[i + a..i + b]
  {
    var inner, outer := s[i..j][a..b], s[i + a..i + b];
    forall x | 0 <= x < b - a ensures inner[x] == outer[x] {
      assert inner[x] == s[i..j][a + x] == s[i + (a + x)];
    }
    assert inner == outer;
  }

  lemma SliceContains(s: string, i: nat, j: nat, part: string)
    requires i <= j <= |s| && Text.Contains(s[i..j], part)
    ensures Text.Contains(s, part)
  {
    var k :| 0 <= k <= |s[i..j]| && Text.OccursAt(s[i..j], part, k);
    SliceOfSlice(s, i, j, k, k + |part|);
    assert i + (k + |part|) == (i + k) + |part|;
    assert Text.OccursAt(s, part, i + k);
  }

  lemma {:induction false} StripKeepsWithin(s: string, part: string)
    requires Text.Contains(Strip(s), part)
    ensures Text.Contains(s, part)
    decreases |s|
  {
    hide Text.Contains, BlankAt;
    if BlankAt(s, 0) {
      assert |s| > 0 by {
        BlankMeansSome(s, 0);
      }
      StripKeepsWithin(s[1..], part);
      assert s[1..|s|] == s[1..];
      SliceContains(s, 1, |s|, part);
    } else if |s| > 0 && BlankAt(s, |s| - 1) {
      StripKeepsWithin(s[..|s| - 1], part);
      assert s[0..|s| - 1] == s[..|s| - 1];
      SliceContains(s, 0, |s| - 1, part);
    }
  }

  lemma BlankMeansSome(s: string, i: nat)
    requires BlankAt(s, i)
    ensures i < |s|
  {
  }

  lemma ContainsItself(s: string)
    ensures Text.Contains(s, s)
  {
    assert s[0..0 + |s|] == s;
    assert Text.OccursAt(s, s, 0);
  }

  /** The mission goal reaches the worker word for word, through any number of dispatches and failed rounds. */
  lemma MissionGoalSurvives(planned: string, mission: string, rs: seq<Rewrite>, n: nat)
    requires |mission| <= MISSION_GOAL_MAX
    requires Unmarked(SubtaskGoal(planned, mission)) && forall r :: r in rs ==> Bounded(r, n)
    ensures Text.Contains(RewrittenAll(SubtaskGoal(planned, mission), rs), Strip(mission))
  {
    hide Text.Contains, Shaped, RewrittenAll, Bounded;
    var goal := SubtaskGoal(planned, mission);
    var last := RewrittenAll(goal, rs);
    GoalsNeverAccumulate(goal, rs, n);
    ShapedIsBounded(goal, n, last);
    if mission == "" {
      EmptyIsContained(last);
    } else {
      if Text.Contains(Strip(planned), Strip(mission)) {
        StripKeepsWithin(planned, Strip(mission));
      } else {
        ContainsItself(Strip(mission));
        StripKeepsWithin(mission, Strip(mission));
        var start := |planned| + |MISSION_HEADER|;
        assert goal[start..|goal|] == mission;
        SliceContains(goal, start, |goal|, Strip(mission));
      }
      assert last[0..|goal|] == goal;
      SliceContains(last, 0, |goal|, Strip(mission));
    }
  }

  lemma EmptyIsContained(s: string)
    ensures Text.Contains(s, Strip(""))
  {
    assert s[0..0] == "";
    assert Text.OccursAt(s, "", 0);
  }
}
