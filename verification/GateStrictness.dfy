/** The workflow scan that looks for weakened gates. Each line is taken as the class of
    patterns it matches. */
module GateStrictness {
  import opened Options
  import opened Blocks

  datatype Line = Line(
    startsStep: bool,
    name: Option<string>,
    docsOnlyGap: bool,
    continueOnError: bool,
    apiKeyCondition: bool,
    promoteWave: Option<nat>,
    notApplicable: bool)

  datatype Violation = AllowDocsOnlyGap | ContinueOnError

  datatype Issue = Issue(step: nat, name: string, violation: Violation)

  const STARTS_STEP: Line -> bool := (l: Line) => l.startsStep

  /** The wave of the first promote annotation in the step. */
  function TargetWave(step: seq<Line>): Option<nat> {
    if step == [] then None else if step[0].promoteWave.Some? then step[0].promoteWave else TargetWave(step[1..])
  }

  function StepName(step: seq<Line>): string {
    if step == [] then "" else if step[0].name.Some? then step[0].name.value else StepName(step[1..])
  }

  predicate HasGap(step: seq<Line>) { exists l :: l in step && l.docsOnlyGap }
  predicate HasContinue(step: seq<Line>) { exists l :: l in step && l.continueOnError }
  predicate HasApiKeyIf(step: seq<Line>) { exists l :: l in step && l.apiKeyCondition }
  predicate HasNotApplicable(step: seq<Line>) { exists l :: l in step && l.notApplicable }

  /** The step is excused at this wave. */
  predicate Excused(step: seq<Line>, wave: nat) {
    var target := TargetWave(step);
    (target.Some? && target.value > wave) || HasNotApplicable(step)
  }

  /** The step weakens a gate in the given way, excuses aside. */
  predicate Weakens(step: seq<Line>, v: Violation) {
    match v
    case AllowDocsOnlyGap => HasGap(step)
    case ContinueOnError => HasContinue(step) && !HasApiKeyIf(step)
  }

  /** The issues that the scan owes for the given steps. */
  ghost predicate HasIssue(steps: seq<seq<Line>>, wave: nat, issue: Issue) {
    && issue.step < |steps| && issue.name == StepName(steps[issue.step])
    && Weakens(steps[issue.step], issue.violation) && !Excused(steps[issue.step], wave)
  }

  /** The issues of one step, in the order of the scan. */
  function StepIssues(step: seq<Line>, index: nat, wave: nat): seq<Issue> {
    if Excused(step, wave) then []
    else
      (if Weakens(step, AllowDocsOnlyGap) then [Issue(index, StepName(step), AllowDocsOnlyGap)] else [])
      + if Weakens(step, ContinueOnError) then [Issue(index, StepName(step), ContinueOnError)] else []
  }

  lemma StepIssuesMeaning(steps: seq<seq<Line>>, index: nat, wave: nat)
    requires index < |steps|
    ensures var found := StepIssues(steps[index], index, wave);
      && (forall issue :: issue in found <==> issue.step == index && HasIssue(steps, wave, issue))
      && (|found| == 2 ==> found[0] != found[1]) && |found| <= 2
  {
    hide Weakens, Excused, StepName;
    var found := StepIssues(steps[index], index, wave);
    forall issue
      ensures issue in found <==> issue.step == index && HasIssue(steps, wave, issue)
    {
      assert issue == Issue(issue.step, issue.name, issue.violation);
      assert issue.violation == AllowDocsOnlyGap || issue.violation == ContinueOnError;
    }
  }

  /** Each issue is listed once, in step order. */
  ghost predicate InOrder(issues: seq<Issue>) {
    forall i, j :: 0 <= i < j < |issues| ==> issues[i] != issues[j] && issues[i].step <= issues[j].step
  }

  /** Exactly the issues of the first n steps are listed. */
  ghost predicate Lists(issues: seq<Issue>, steps: seq<seq<Line>>, wave: nat, n: nat) {
    InOrder(issues) && forall issue :: issue in issues <==> issue.step < n && HasIssue(steps, wave, issue)
  }

  lemma ListsMore(issues: seq<Issue>, steps: seq<seq<Line>>, wave: nat, n: nat)
    requires n < |steps| && Lists(issues, steps, wave, n)
    ensures Lists(issues + StepIssues(steps[n], n, wave), steps, wave, n + 1)
  {
    hide StepIssues, HasIssue;
    StepIssuesMeaning(steps, n, wave);
    var found := StepIssues(steps[n], n, wave);
    assert forall i :: 0 <= i < |issues| ==> issues[i] in issues;
    assert forall i :: 0 <= i < |found| ==> found[i] in found;
  }

  /** The scan: every step is checked for both violations, in order. */
  method CheckFile(lines: seq<Line>, wave: nat) returns (steps: seq<seq<Line>>, issues: seq<Issue>)
    ensures AllBlocks(steps, STARTS_STEP) && Flatten(steps) == FromHeader(lines, STARTS_STEP)
    ensures forall issue :: issue in issues <==> HasIssue(steps, wave, issue)
    ensures forall i, j :: 0 <= i < j < |issues| ==> issues[i] != issues[j] && issues[i].step <= issues[j].step
  {
    steps := Parse(lines, STARTS_STEP);
    hide AllBlocks, Flatten, FromHeader, HasGap, HasContinue, HasApiKeyIf, HasNotApplicable, TargetWave, StepName;
    issues := [];
    for i := 0 to |steps|
      invariant Lists(issues, steps, wave, i)
    {
      ListsMore(issues, steps, wave, i);
      ghost var before := issues;
      var step := steps[i];
      var target := TargetWave(step);
      var promoted := target.Some? && target.value > wave;
      var excused := promoted || HasNotApplicable(step);
      if HasGap(step) && !excused {
        issues := issues + [Issue(i, StepName(step), AllowDocsOnlyGap)];
      }
      if HasContinue(step) && !HasApiKeyIf(step) && !excused {
        issues := issues + [Issue(i, StepName(step), ContinueOnError)];
      }
      assert issues == before + StepIssues(step, i, wave);
    }
  }

  /** Advancing the wave only adds issues, and it adds exactly those of steps whose first
      annotation expires in between. */
  lemma IssuesGrow(steps: seq<seq<Line>>, wave: nat, later: nat, issue: Issue)
    requires wave <= later
    ensures HasIssue(steps, wave, issue) ==> HasIssue(steps, later, issue)
    ensures HasIssue(steps, later, issue) ==>
      var target := TargetWave(steps[issue.step]);
      !HasIssue(steps, wave, issue) <==> target.Some? && wave < target.value <= later
  {
  }

  /** An unreadable wave file counts as wave 0, where the issues are exactly those of weakening
      steps without a not_applicable comment and without an annotation for a positive wave. */
  lemma WaveZeroExcusesAnnotated(steps: seq<seq<Line>>, issue: Issue)
    ensures HasIssue(steps, 0, issue) <==>
      && issue.step < |steps| && issue.name == StepName(steps[issue.step])
      && Weakens(steps[issue.step], issue.violation) && !HasNotApplicable(steps[issue.step])
      && (TargetWave(steps[issue.step]) == None || TargetWave(steps[issue.step]) == Some(0))
  {
    hide Weakens, HasNotApplicable, TargetWave, StepName;
  }

  /** The step weakens a gate and nothing but a promote annotation could excuse it. */
  predicate Unexcused(step: seq<Line>, v: Violation) { Weakens(step, v) && !HasNotApplicable(step) }

  /** No annotation is exempt: every such step has its issue. */
  ghost predicate NoneExempt(steps: seq<seq<Line>>, wave: nat) {
    forall i: nat, v :: i < |steps| && Unexcused(steps[i], v) ==> HasIssue(steps, wave, Issue(i, StepName(steps[i]), v))
  }

  /** What the fallback to wave 0 is there for, that no annotation is exempt, holds exactly when
      no weakening step carries an annotation for a positive wave; for the current wave it
      would hold exactly when no annotation lies in the future. */
  lemma NoneExemptExact(steps: seq<seq<Line>>, wave: nat)
    ensures NoneExempt(steps, wave) <==>
      forall i: nat, v :: i < |steps| && Unexcused(steps[i], v) ==>
        TargetWave(steps[i]).None? || TargetWave(steps[i]).value <= wave
  {
    hide Weakens, HasNotApplicable, TargetWave, StepName;
    forall i: nat, v | i < |steps| && Unexcused(steps[i], v)
      ensures HasIssue(steps, wave, Issue(i, StepName(steps[i]), v)) <==>
        TargetWave(steps[i]).None? || TargetWave(steps[i]).value <= wave
    {
      assert !HasNotApplicable(steps[i]);
    }
  }

  const ADVISORY_STEP := [Line(true, Some("lint"), false, true, false, Some(40), false)]

  /** A step that is advisory until wave 40 is exempt at wave 0. */
  lemma WaveZeroExempts()
    ensures Unexcused(ADVISORY_STEP, ContinueOnError) && !NoneExempt([ADVISORY_STEP], 0)
  {
    assert ADVISORY_STEP[0] in ADVISORY_STEP;
    assert TargetWave(ADVISORY_STEP) == Some(40);
    var steps := [ADVISORY_STEP];
    assert Unexcused(steps[0], ContinueOnError);
    NoneExemptExact(steps, 0);
  }

  // ----- Issues line by line -----

  /** The first line of a step that carries a promote annotation gives its wave, the first
      named one the step's name. */
  lemma {:induction false} FirstLines(step: seq<Line>, i: nat)
    requires i < |step|
    ensures step[i].promoteWave.Some? && (forall j :: 0 <= j < i ==> step[j].promoteWave.None?) ==>
      TargetWave(step) == step[i].promoteWave
    ensures step[i].name.Some? && (forall j :: 0 <= j < i ==> step[j].name.None?) ==>
      StepName(step) == step[i].name.value
    ensures (forall j :: 0 <= j < |step| ==> step[j].promoteWave.None?) ==> TargetWave(step) == None
    ensures (forall j :: 0 <= j < |step| ==> step[j].name.None?) ==> StepName(step) == ""
    decreases |step|
  {
    if |step| > 1 {
      assert forall j :: 0 <= j < |step[1..]| ==> step[1..][j] == step[j + 1];
      FirstLines(step[1..], if i == 0 then 0 else i - 1);
    }
  }

  ghost predicate SomeLine(step: seq<Line>, test: Line -> bool) { exists i :: 0 <= i < |step| && test(step[i]) }

  /** The two issues of a step in terms of its lines: the docs-only flag, or continue-on-error
      without an API-key condition, and neither a not_applicable comment nor a first
      annotation for a later wave. */
  lemma IssueExact(steps: seq<seq<Line>>, wave: nat, index: nat)
    requires index < |steps|
    ensures var step := steps[index];
      var excused := SomeLine(step, (l: Line) => l.notApplicable)
                     || (TargetWave(step).Some? && wave < TargetWave(step).value);
      && (HasIssue(steps, wave, Issue(index, StepName(step), AllowDocsOnlyGap)) <==>
            SomeLine(step, (l: Line) => l.docsOnlyGap) && !excused)
      && (HasIssue(steps, wave, Issue(index, StepName(step), ContinueOnError)) <==>
            && SomeLine(step, (l: Line) => l.continueOnError) && !SomeLine(step, (l: Line) => l.apiKeyCondition)
            && !excused)
  {
    hide TargetWave, StepName;
  }
}
