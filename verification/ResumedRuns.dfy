/** What a run resumed from a checkpoint still guarantees: its counters start again, so its
    references repeat and the run cap counts anew; its action budget is gone. */
module ResumedRuns {
  import opened Options
  import opened RunTypes
  import opened Identifiers
  import opened StageSpec
  import opened ActionProperties
  import opened BranchAgreement
  import opened StageOutcome
  import opened Freshness
  import opened RunSessions
  import opened RunOutcomes
  import opened GateLogs
  import opened ShippedCalls
  import opened Strings

  datatype Checkpoint = Checkpoint(
    runId: string, currentStage: string, actionSeq: nat, branchSeq: nat, l1: map<string, Summary>)

  /** What the resumed executor starts from, when no RunContext is passed along: summaries
      without the automatic ones and without artifacts, and fresh counters except two. */
  function ResumedExec(cp: Checkpoint): Exec {
    Exec(cp.runId, cp.currentStage, cp.actionSeq, cp.branchSeq, 0, 0, 0, map[], map[],
         RestoredSummaries(cp.l1))
  }

  function RestoredSummaries(l1: map<string, Summary>): map<string, Summary> {
    map k | k in l1 && !EndsWith(k, "_auto") :: Summary(l1[k].outcome, [])
  }

  /** The resumed session; the kernel still has what it was told before. */
  function Resumed(cp: Checkpoint, kernel: seq<KernelEvent>): Session {
    Session(World(ResumedExec(cp), kernel, [], map[], []), None, false)
  }

  /** The checkpoint has a summary for the stage that is not an automatic one. */
  predicate Summarises(cp: Checkpoint, stage: string) {
    stage in cp.l1 && !(|stage| >= 5 && stage[|stage| - 5..] == "_auto")
  }

  /** Current stage, action and branch counter are the checkpoint's; a stage has a summary
      exactly when the checkpoint has one for it that is not automatic, with the checkpoint's
      outcome; decisions, gates, branches and nodes start from nothing. */
  lemma ResumedExact(cp: Checkpoint, kernel: seq<KernelEvent>, stage: string)
    ensures var w := Resumed(cp, kernel).w;
      && w.live == Exec(cp.runId, cp.currentStage, cp.actionSeq, cp.branchSeq, 0, 0, 0, map[], map[], w.live.summaries)
      && (stage in w.live.summaries <==> Summarises(cp, stage))
      && (Summarises(cp, stage) ==> w.live.summaries[stage] == Summary(cp.l1[stage].outcome, []))
      && w.kernel == kernel && w.events == [] && w.traces == map[] && w.saved == []
  {
    assert |"_auto"| == 5;
  }

  /** Over every schedule after the resume a stage that no call names keeps exactly the summary
      that the checkpoint gave it. */
  lemma ResumedSummariesKept(cfg: Config, cp: Checkpoint, kernel: seq<KernelEvent>, calls: seq<Call>, stage: string)
    requires forall i :: 0 <= i < |calls| ==> calls[i].stage != stage
    ensures var e := RunCalls(cfg, Resumed(cp, kernel), calls).w.live;
      && (stage in e.summaries <==> Summarises(cp, stage))
      && (Summarises(cp, stage) ==> e.summaries[stage] == Summary(cp.l1[stage].outcome, []))
  {
    hide RunCalls, Summarises, LastMark;
    ResumedExact(cp, kernel, stage);
    UncalledKept(cfg, Resumed(cp, kernel), calls, stage);
  }

  /** The limits of the resumed run: the rebuilt contract has no action budget, whatever the
      limits were. */
  function Rebuilt(cfg: Config): Config { cfg.(maxActions := None) }

  // ----- References -----

  /** A position of the second log, behind the whole first one, carries the reference. */
  ghost predicate CarriedLater(before: seq<KernelEvent>, log: seq<KernelEvent>, ref: string) {
    before <= log && exists j :: |before| <= j < |log| && AnyRefOf(log[j]) == [ref]
  }

  /** Longer logs on either side. */
  lemma CarriedFrom(before: seq<KernelEvent>, early: seq<KernelEvent>, late: seq<KernelEvent>,
                    log: seq<KernelEvent>, ref: string)
    requires before <= early && CarriedLater(early, late, ref) && late <= log
    ensures CarriedLater(before, log, ref)
  {
    var j :| |early| <= j < |late| && AnyRefOf(late[j]) == [ref];
    assert log[j] == late[j];
  }

  lemma CarriedTwice(before: seq<KernelEvent>, log: seq<KernelEvent>, i: nat, ref: string)
    requires i < |before| && AnyRefOf(before[i]) == [ref] && CarriedLater(before, log, ref)
    ensures !AllDistinct(log)
  {
    var j :| |before| <= j < |log| && AnyRefOf(log[j]) == [ref];
    assert log[i] == before[i];
  }

  /** The projection shows an event's reference. */
  ghost predicate Shows<T(!new)>(f: KernelEvent -> seq<T>, ref: T -> string) {
    forall e, x :: x in f(e) ==> AnyRefOf(e) == [ref(x)]
  }

  lemma {:induction false} ProjectedFrom<T(!new)>(log: seq<KernelEvent>, f: KernelEvent -> seq<T>, ref: T -> string,
                                                  x: T)
    requires Shows(f, ref) && x in Project(log, f)
    ensures exists j :: 0 <= j < |log| && AnyRefOf(log[j]) == [ref(x)]
  {
    var init, last := log[..|log| - 1], log[|log| - 1];
    if x in f(last) {
      assert AnyRefOf(last) == [ref(x)];
    } else {
      ProjectedFrom(init, f, ref, x);
      var j :| 0 <= j < |init| && AnyRefOf(init[j]) == [ref(x)];
      assert log[j] == init[j];
    }
  }

  /** What a longer log adds to a projection stands in its new part. */
  lemma ProjectedLater<T(!new)>(before: seq<KernelEvent>, log: seq<KernelEvent>, f: KernelEvent -> seq<T>,
                                ref: T -> string, more: seq<T>, x: T)
    requires Shows(f, ref) && before <= log && Project(log, f) == Project(before, f) + more && x in more
    ensures CarriedLater(before, log, ref(x))
  {
    hide Project, Shows;
    var tail := log[|before|..];
    assert log == before + tail;
    ProjectAppend(before, tail, f);
    var a, b := Project(before, f), Project(tail, f);
    assert b == (a + b)[|a|..] == (a + more)[|a|..] == more;
    ProjectedFrom(tail, f, ref, x);
    var j :| 0 <= j < |tail| && AnyRefOf(tail[j]) == [ref(x)];
    assert log[|before| + j] == tail[j];
  }

  /** Limits under which the calls below run to their end. */
  function WideLimits(n: nat): Config { Config(None, n + 5, n + 5, false, false) }

  lemma WideEnough(cp: Checkpoint, kernel: seq<KernelEvent>, stage: string, n: nat, wanted: nat)
    requires wanted <= n + 5
    ensures Admitted(WideLimits(n), Resumed(cp, kernel).w.live, stage, wanted) == wanted
  {
  }

  lemma {:induction false} RunAllPrefix(w: World, stage: string, ps: seq<Action>, arts: seq<string>)
    requires AllClean(ps)
    ensures w.kernel <= RunAll(w, stage, ps, arts).w.kernel
    decreases |ps|
  {
    hide Executed, Raises, NodeAfter;
    if ps != [] {
      var r := Executed(w, stage, ps[0], arts);
      ActionEffect(w, stage, ps[0], arts);
      RunAllStep(w, stage, ps, arts, r);
      RunAllPrefix(r.w, stage, ps[1..], r.artifacts);
    }
  }

  /** A reference that the actions of a smooth call tell the kernel comes after the resume. */
  lemma CallCarries(cp: Checkpoint, kernel: seq<KernelEvent>, n: nat, stage: string, ps: seq<Action>, ref: string)
    requires AllClean(ps) && |ps| <= n + 5
    requires var w0 := StageOpening(Resumed(cp, kernel).w, stage, SmoothCall(stage, ps).oracle);
      CarriedLater(w0.kernel, RunAll(w0, stage, ps, []).w.kernel, ref)
    ensures CarriedLater(kernel, RunCalls(WideLimits(n), Resumed(cp, kernel), [SmoothCall(stage, ps)]).w.kernel, ref)
  {
    hide StageStep, RunAll, Raises, CarriedLater, StageOpening;
    var cfg, s, c := WideLimits(n), Resumed(cp, kernel), SmoothCall(stage, ps);
    WideEnough(cp, kernel, stage, n, |ps|);
    SmoothStage(cfg, s.w, stage, ps);
    OneCall(cfg, s, c);
    var w0 := StageOpening(s.w, stage, c.oracle);
    CarriedFrom(kernel, w0.kernel, RunAll(w0, stage, ps, []).w.kernel, SessionStep(cfg, s, c).w.kernel, ref);
  }

  // ----- Decisions -----

  /** n + 1 accepted actions in one branch, each with a task view of its own. */
  function DecisionActions(branch: string, n: nat): seq<Action> {
    seq(n + 1, i requires 0 <= i => SmoothAction(branch, true, [], Tally(i)))
  }

  function DecisionCall(stage: string, branch: string, n: nat): Call {
    SmoothCall(stage, DecisionActions(branch, n))
  }

  /** Names of growing length. */
  function Tally(i: nat): string { seq(i + 1, _ => 's') }

  lemma {:induction false} AllAccepted(ps: seq<Action>)
    requires forall i :: 0 <= i < |ps| ==> Ok(ps[i])
    ensures Accepted(ps) == ps
  {
    if ps != [] { AllAccepted(ps[1..]); }
  }

  lemma DecisionReceivable(run: string, stage: string, branch: string, n: nat)
    requires !Blank(run) && !Blank(stage) && !Blank(branch)
    ensures Receivable(run, DecisionCall(stage, branch, n)) && AllClean(DecisionActions(branch, n))
  {
    hide Blank, WatchdogTriggers;
    var ps := DecisionActions(branch, n);
    assert [] == Triggered(false, false, false);
    forall i | 0 <= i < |ps|
      ensures ps[i].watchdog.Quiet? && !WatchdogTriggers(ps[..i + 1])
    {
      StaysQuiet(ps[..i + 1], i + 1);
    }
  }

  /** Every decision reference of the run in a stage and branch that the adapter accepts, with
      any counter, is issued by some receivable schedule after a resume, whether it was
      issued before or not. */
  lemma ResumeReissuesDecision(cp: Checkpoint, kernel: seq<KernelEvent>, stage: string, branch: string, n: nat)
    requires !Blank(cp.runId) && !Blank(stage) && !Blank(branch)
    ensures Receivable(cp.runId, DecisionCall(stage, branch, n))
    ensures CarriedLater(kernel,
                         RunCalls(WideLimits(n), Resumed(cp, kernel), [DecisionCall(stage, branch, n)]).w.kernel,
                         DecisionRef(cp.runId, stage, branch, n))
  {
    hide RunAll, Project, DecisionRef, Bindings, Raises, CarriedLater, Receivable, Blank, RunCalls;
    var ps := DecisionActions(branch, n);
    DecisionReceivable(cp.runId, stage, branch, n);
    AllAccepted(ps);
    BindingAt(cp.runId, stage, ps, 0, n);
    var w0 := StageOpening(Resumed(cp, kernel).w, stage, SmoothCall(stage, ps).oracle);
    RunLogs(w0, stage, ps, []);
    RunAllPrefix(w0, stage, ps, []);
    var bound := Bindings(cp.runId, stage, ps, 0);
    assert bound[n] in bound;
    ProjectedLater(w0.kernel, RunAll(w0, stage, ps, []).w.kernel, BindingOf, (b: (string, string)) => b.1, bound,
                   bound[n]);
    CallCarries(cp, kernel, n, stage, ps, DecisionRef(cp.runId, stage, branch, n));
  }

  // ----- Gates -----

  const GATE_STAGE := "stage"
  const GATE_BRANCH := "branch"

  /** Accepted actions whose results are to be reviewed. */
  function ReviewedActions(n: nat): seq<Action> {
    seq(n, i requires 0 <= i => SmoothAction(GATE_BRANCH, true, [REVIEW_GATE], Tally(i)))
  }

  /** Actions of which only the last one opens a gate, of the given type: a failure that calls
      for a correction, five failures in a row for the watchdog, an accepted action else. */
  function GateActions(gateType: string): seq<Action> {
    var failed := SmoothAction(GATE_BRANCH, false, [], "");
    if gateType == WATCHDOG_GATE then [failed, failed, failed, failed, failed.(watchdog := OpensGate)]
    else [SmoothAction(GATE_BRANCH, gateType != CORRECTION_GATE, [gateType], "view")]
  }

  function GateCall(gateType: string, n: nat): Call {
    SmoothCall(GATE_STAGE, ReviewedActions(n) + GateActions(gateType))
  }

  lemma GateReceivable(run: string, gateType: string, n: nat)
    requires !Blank(run) && gateType in GATE_TYPES
    ensures Receivable(run, GateCall(gateType, n)) && AllClean(GateCall(gateType, n).oracle.proposals)
  {
    hide WatchdogTriggers, Triggered;
    var reviewed, ps := ReviewedActions(n), GateCall(gateType, n).oracle.proposals;
    assert GATE_STAGE[0] !in SPACES && GATE_BRANCH[0] !in SPACES;
    forall i | 0 <= i < |ps|
      ensures GatesFit(ps[i]) && !Raises(ps[i]) && !Blank(ps[i].branch)
      ensures ps[i].watchdog.Quiet? <==> !WatchdogTriggers(ps[..i + 1])
    {
      GateActionFits(ps[i], gateType);
      if i < n + 4 {
        StaysQuiet(ps[..i + 1], if i < n then i + 1 else n);
      } else {
        TrailingAtLeast(ps[..i + 1], MAX_CONSECUTIVE_FAILURES);
        Triggers(ps[..i + 1]);
      }
    }
  }

  lemma Triggers(ps: seq<Action>)
    requires TrailingFailures(ps) >= MAX_CONSECUTIVE_FAILURES
    ensures WatchdogTriggers(ps)
  {
  }

  lemma GateActionFits(a: Action, gateType: string)
    requires gateType in GATE_TYPES
    requires a.gates == [] || (a.success && a.gates == [REVIEW_GATE])
          || (gateType != WATCHDOG_GATE && a.gates == [gateType] && a.success == (gateType != CORRECTION_GATE))
    ensures GatesFit(a)
  {
    assert Triggered(false, false, false) == [];
    assert Triggered(true, false, false) == [CORRECTION_GATE];
    assert Triggered(false, true, false) == [REVIEW_GATE];
    assert Triggered(false, false, true) == [APPROVAL_GATE];
  }

  /** The types of the gates that a list of actions opens. */
  function Types(ps: seq<Action>): seq<string> { if ps == [] then [] else GateTypes(ps[0]) + Types(ps[1..]) }

  lemma {:induction false} TypesNumbered(run: string, ps: seq<Action>, n: nat)
    requires forall i :: 0 <= i < |ps| ==> |GateTypes(ps[i])| == GateNumbers(ps[i])
    ensures RunGateRefs(run, ps, n) == GateRefs(run, Types(ps), n)
    decreases |ps|
  {
    hide GateRefs;
    if ps == [] {
      NoGateRefs(run, n);
    } else {
      assert |GateTypes(ps[0])| == GateNumbers(ps[0]);
      assert forall i :: 0 <= i < |ps[1..]| ==> ps[1..][i] == ps[i + 1];
      hide GateTypes, GateNumbers;
      TypesNumbered(run, ps[1..], n + GateNumbers(ps[0]));
      GateRefsAppend(run, GateTypes(ps[0]), Types(ps[1..]), n);
    }
  }

  lemma {:induction false} TypesAppend(a: seq<Action>, b: seq<Action>)
    ensures Types(a + b) == Types(a) + Types(b)
  {
    hide GateTypes;
    if a == [] {
      assert a + b == b;
    } else {
      assert (a + b)[1..] == a[1..] + b;
      TypesAppend(a[1..], b);
    }
  }

  lemma {:induction false} OneTypeEach(ps: seq<Action>)
    requires forall i :: 0 <= i < |ps| ==> |GateTypes(ps[i])| == 1
    ensures |Types(ps)| == |ps|
  {
    if ps != [] { OneTypeEach(ps[1..]); }
  }

  lemma LastType(gateType: string)
    ensures Types(GateActions(gateType)) == [gateType]
  {
    var ps := GateActions(gateType);
    if gateType == WATCHDOG_GATE {
      var quiet := ps[..4];
      assert ps == quiet + [ps[4]];
      TypesAppend(quiet, [ps[4]]);
      NoTypes(quiet);
      assert [ps[4]][1..] == [];
    } else {
      assert ps[1..] == [];
    }
  }

  lemma {:induction false} NoTypes(ps: seq<Action>)
    requires forall i :: 0 <= i < |ps| ==> GateTypes(ps[i]) == []
    ensures Types(ps) == []
  {
    if ps != [] { NoTypes(ps[1..]); }
  }

  /** The n-th gate of the call, counted from 0, is of the wanted type. */
  lemma GateCallRefs(run: string, gateType: string, n: nat)
    ensures GateRef(run, gateType, n) in RunGateRefs(run, GateCall(gateType, n).oracle.proposals, 0)
  {
    hide GateRef, GateRefs, RunGateRefs, Types;
    var reviewed, last := ReviewedActions(n), GateActions(gateType);
    TypesNumbered(run, reviewed + last, 0);
    TypesAppend(reviewed, last);
    OneTypeEach(reviewed);
    LastType(gateType);
    var types := Types(reviewed + last);
    assert types[n] == gateType;
    GateRefAt(run, types, 0, n);
    assert GateRefs(run, types, 0)[n] in GateRefs(run, types, 0);
  }

  /** Every gate reference of the run, of each of the four types and with any counter, is issued
      by some receivable schedule after a resume. */
  lemma ResumeReissuesGate(cp: Checkpoint, kernel: seq<KernelEvent>, gateType: string, n: nat)
    requires !Blank(cp.runId) && gateType in GATE_TYPES
    ensures Receivable(cp.runId, GateCall(gateType, n))
    ensures CarriedLater(kernel, RunCalls(WideLimits(n), Resumed(cp, kernel), [GateCall(gateType, n)]).w.kernel,
                         GateRef(cp.runId, gateType, n))
  {
    hide RunAll, Project, GateRef, RunGateRefs, Raises, CarriedLater, Receivable, RunCalls, Blank;
    var ps, ref := GateCall(gateType, n).oracle.proposals, GateRef(cp.runId, gateType, n);
    GateReceivable(cp.runId, gateType, n);
    GateCallRefs(cp.runId, gateType, n);
    var w0 := StageOpening(Resumed(cp, kernel).w, GATE_STAGE, SmoothCall(GATE_STAGE, ps).oracle);
    RunGates(w0, GATE_STAGE, ps, []);
    RunAllPrefix(w0, GATE_STAGE, ps, []);
    ProjectedLater(w0.kernel, RunAll(w0, GATE_STAGE, ps, []).w.kernel, GateOf, (r: string) => r,
                   RunGateRefs(cp.runId, ps, 0), ref);
    CallCarries(cp, kernel, n, GATE_STAGE, ps, ref);
  }

  // ----- Distinct references -----

  /** Under all limits and schedules the references told to the kernel stay distinct. */
  ghost predicate StaysDistinct(s: Session) {
    forall cfg, calls :: AllDistinct(RunCalls(cfg, s, calls).w.kernel)
  }

  /** They do so under all limits without an action budget and all receivable schedules. */
  ghost predicate StaysDistinctShipped(s: Session) {
    forall cfg: Config, calls :: cfg.maxActions.None? && AllReceivable(s.w.live.runId, calls) ==>
      AllDistinct(RunCalls(cfg, s, calls).w.kernel)
  }

  ghost predicate NoReference(log: seq<KernelEvent>) { forall e :: e in log ==> AnyRefOf(e) == [] }

  /** A run of which all references are fresh, resumed from a checkpoint: its references stay
      distinct over all later schedules exactly when none was issued before, and receivable
      schedules are enough to tell. RunFresh and RunShipped say that every run of plain calls
      from a new executor meets the requirements. */
  lemma ResumedFreshExact(cp: Checkpoint, before: World)
    requires Fresh(before) && ShippedLog(before.live.runId, before.kernel)
    requires cp.runId == before.live.runId && !Blank(cp.runId)
    ensures StaysDistinct(Resumed(cp, before.kernel)) <==> NoReference(before.kernel)
    ensures StaysDistinctShipped(Resumed(cp, before.kernel)) <==> NoReference(before.kernel)
  {
    hide RunCalls, AllDistinct, Fresh, AnyRefOf, Receivable, Blank, ShippedEvent;
    var log, s := before.kernel, Resumed(cp, before.kernel);
    if NoReference(log) {
      NoneIssued(cp, log);
      forall cfg, calls
        ensures AllDistinct(RunCalls(cfg, s, calls).w.kernel)
      {
        RunFresh(cfg, s, calls);
      }
    } else {
      var e :| e in log && AnyRefOf(e) != [];
      var i :| 0 <= i < |log| && log[i] == e;
      var cfg, c := ReissuedAt(cp, before, i);
      assert AllReceivable(cp.runId, [c]);
      assert !AllDistinct(RunCalls(cfg, s, [c]).w.kernel);
    }
  }

  lemma NoneIssued(cp: Checkpoint, kernel: seq<KernelEvent>)
    requires NoReference(kernel)
    ensures Fresh(Resumed(cp, kernel).w)
  {
    forall i | 0 <= i < |kernel|
      ensures RefOf(kernel[i]) == [] && GateOf(kernel[i]) == []
    {
      assert AnyRefOf(kernel[i]) == [];
    }
    ProjectNone(kernel, RefOf);
    ProjectNone(kernel, GateOf);
  }

  /** The call that issues the reference at the given position again. */
  lemma ReissuedAt(cp: Checkpoint, before: World, i: nat) returns (cfg: Config, c: Call)
    requires ShippedLog(before.live.runId, before.kernel)
    requires cp.runId == before.live.runId && !Blank(cp.runId)
    requires i < |before.kernel| && AnyRefOf(before.kernel[i]) != []
    ensures cfg.maxActions.None? && Receivable(cp.runId, c)
    ensures !AllDistinct(RunCalls(cfg, Resumed(cp, before.kernel), [c]).w.kernel)
  {
    hide RunCalls, AllDistinct, DecisionRef, GateRef, CarriedLater, Blank, Receivable;
    var log, run, e := before.kernel, cp.runId, before.kernel[i];
    assert ShippedEvent(run, e);
    if e.DecisionBound? {
      var stage, branch, n :| !Blank(stage) && !Blank(branch) && e.decisionRef == DecisionRef(run, stage, branch, n);
      cfg, c := WideLimits(n), DecisionCall(stage, branch, n);
      ResumeReissuesDecision(cp, log, stage, branch, n);
      CarriedTwice(log, RunCalls(cfg, Resumed(cp, log), [c]).w.kernel, i, e.decisionRef);
    } else {
      var gateType, n :| gateType in GATE_TYPES && e.gateRef == GateRef(run, gateType, n);
      cfg, c := WideLimits(n), GateCall(gateType, n);
      ResumeReissuesGate(cp, log, gateType, n);
      CarriedTwice(log, RunCalls(cfg, Resumed(cp, log), [c]).w.kernel, i, e.gateRef);
    }
  }

  /** A run from a new executor, whatever raised in it, resumed from a checkpoint. */
  lemma ResumedRunExact(cfg: Config, run: string, past: seq<Call>, cp: Checkpoint)
    requires (forall i :: 0 <= i < |past| ==> Plain(past[i])) && cp.runId == run && !Blank(run)
    ensures var log := RunCalls(cfg, FreshSession(run), past).w.kernel;
      && (StaysDistinct(Resumed(cp, log)) <==> NoReference(log))
      && (StaysDistinctShipped(Resumed(cp, log)) <==> NoReference(log))
  {
    hide RunCalls, Plain, Blank, StaysDistinct, StaysDistinctShipped, NoReference, ShippedEvent;
    var s := FreshSession(run);
    assert Fresh(s.w);
    hide Fresh;
    RunFresh(cfg, s, past);
    RunShipped(cfg, s, past);
    ResumedFreshExact(cp, RunCalls(cfg, s, past).w);
  }

  // ----- The run cap and the action budget -----

  /** How many branches the branch limits let a resumed run open. */
  function Room(cfg: Config): nat { if cfg.perStageCap <= 0 then 0 else Clamp(cfg.runCap) }

  /** A stage of its own with one accepted action. */
  function OpeningCall(i: nat): Call { SmoothCall(Tally(i), [SmoothAction("b", true, [], "view")]) }

  function Openings(i: nat, n: nat): seq<Call>
    decreases n
  {
    if n == 0 then [] else [OpeningCall(i)] + Openings(i + 1, n - 1)
  }

  lemma OpeningReceivable(run: string, i: nat)
    requires !Blank(run)
    ensures Receivable(run, OpeningCall(i))
  {
    hide WatchdogTriggers;
    var ps := OpeningCall(i).oracle.proposals;
    assert Tally(i)[0] !in SPACES && ps[0].branch[0] !in SPACES;
    assert [] == Triggered(false, false, false);
    assert ps[..1] == ps;
    StaysQuiet(ps, 1);
  }

  lemma {:induction false} OpeningsReceivable(run: string, i: nat, n: nat)
    requires !Blank(run)
    ensures AllReceivable(run, Openings(i, n))
    decreases n
  {
    hide Receivable, Blank;
    if n > 0 {
      OpeningReceivable(run, i);
      OpeningsReceivable(run, i + 1, n - 1);
    }
  }

  /** The call opens one branch and counts one action. */
  lemma OpensOne(cfg: Config, w: World, i: nat)
    requires !Spent(cfg, w.live) && w.live.totalBranches < cfg.runCap && Tally(i) !in w.live.stageBranches
    ensures var v := StageStep(cfg, w, Tally(i), OpeningCall(i).oracle).w;
      && BranchesOpened(v.kernel) == BranchesOpened(w.kernel) + 1
      && v.live.totalBranches == w.live.totalBranches + 1 && v.live.actionSeq == w.live.actionSeq + 1
      && v.live.stageBranches == w.live.stageBranches[Tally(i) := 1]
  {
    hide Tally, Project, StageStep, Executed, OnlyGates, DecisionRef, NodeKey;
    var stage, o := Tally(i), OpeningCall(i).oracle;
    var w0, ps := StageOpening(w, stage, o), o.proposals;
    SmoothStage(cfg, w, stage, ps);
    RunLogs(w0, stage, ps, []);
    assert ps[1..] == [] && Branches(stage, ps) == [(stage, "b")];
    var r := Executed(w0, stage, ps[0], []);
    ActionEffect(w0, stage, ps[0], []);
    RunAllStep(w0, stage, ps, [], r);
    var v := StageStep(cfg, w, stage, o).w;
    AppendStages(w.kernel, w0.kernel);
    AppendStages(r.w.kernel, v.kernel);
  }

  lemma AppendStages(a: seq<KernelEvent>, b: seq<KernelEvent>)
    requires a <= b && OnlyStages(b[|a|..])
    ensures BranchesOpened(a) == BranchesOpened(b)
  {
    hide Project;
    assert b == a + b[|a|..];
    AppendNone(a, b[|a|..], OpenedOf);
  }

  /** Every call of the schedule does so. */
  lemma {:induction false} OpensAll(cfg: Config, s: Session, i: nat, n: nat)
    requires cfg.maxActions.None? && cfg.perStageCap > 0 && s.w.live.totalBranches + n <= cfg.runCap
    requires forall k :: k in s.w.live.stageBranches ==> |k| <= i
    ensures var e := RunCalls(cfg, s, Openings(i, n)).w;
      && BranchesOpened(e.kernel) == BranchesOpened(s.w.kernel) + n
      && e.live.actionSeq == s.w.live.actionSeq + n
    decreases n
  {
    hide StageStep, BranchesOpened;
    if n > 0 {
      assert |Tally(i)| == i + 1;
      OpensOne(cfg, s.w, i);
      OpensAll(cfg, SessionStep(cfg, s, OpeningCall(i)), i + 1, n - 1);
      assert Openings(i, n)[1..] == Openings(i + 1, n - 1);
    }
  }

  /** No schedule after the resume leads to more open branches than the bound. */
  ghost predicate OpensAtMost(cfg: Config, s: Session, bound: int) {
    forall calls :: BranchesOpened(RunCalls(cfg, s, calls).w.kernel) <= bound
  }

  /** No schedule after the resume gets beyond the bound with its action counter. */
  ghost predicate ActsAtMost(cfg: Config, s: Session, bound: int) {
    forall calls :: RunCalls(cfg, s, calls).w.live.actionSeq <= bound
  }

  /** What every schedule after a resume respects. */
  lemma ResumedBounds(cfg: Config, cp: Checkpoint, kernel: seq<KernelEvent>, calls: seq<Call>)
    ensures var e := RunCalls(Rebuilt(cfg), Resumed(cp, kernel), calls).w;
      && BranchesOpened(e.kernel) <= BranchesOpened(kernel) + Room(cfg)
      && e.live.actionSeq <= cp.actionSeq + Room(cfg)
  {
    hide RunCalls, BranchesOpened, Within, Conserved, Accounted;
    RunKeeps(Rebuilt(cfg), Resumed(cp, kernel), calls);
  }

  /** A receivable schedule in which nothing raises attains both bounds. */
  lemma BoundsAttained(cfg: Config, cp: Checkpoint, kernel: seq<KernelEvent>)
    requires !Blank(cp.runId)
    ensures var calls := Openings(0, Room(cfg));
      var e := RunCalls(Rebuilt(cfg), Resumed(cp, kernel), calls).w;
      && AllReceivable(cp.runId, calls)
      && BranchesOpened(e.kernel) == BranchesOpened(kernel) + Room(cfg)
      && e.live.actionSeq == cp.actionSeq + Room(cfg)
  {
    hide BranchesOpened, Blank;
    OpeningsReceivable(cp.runId, 0, Room(cfg));
    if Room(cfg) > 0 { OpensAll(Rebuilt(cfg), Resumed(cp, kernel), 0, Room(cfg)); }
  }

  /** After a resume the run cap counts anew: the most branches that the kernel is ever told to
      open are those opened before plus what the branch limits admit from zero, whatever is
      left of the action budget. The cap itself bounds them exactly when these two together
      do, so, as long as a stage may open a branch at all, exactly when none was opened
      before. */
  lemma ResumedBranchesExact(cfg: Config, cp: Checkpoint, kernel: seq<KernelEvent>)
    requires !Blank(cp.runId)
    ensures var s := Resumed(cp, kernel);
      var most := BranchesOpened(kernel) + Room(cfg);
      && OpensAtMost(Rebuilt(cfg), s, most)
      && (exists calls :: AllReceivable(cp.runId, calls)
                          && BranchesOpened(RunCalls(Rebuilt(cfg), s, calls).w.kernel) == most)
      && (OpensAtMost(Rebuilt(cfg), s, cfg.runCap) <==> most <= cfg.runCap)
    ensures cfg.runCap >= 0 && cfg.perStageCap > 0 ==>
      (OpensAtMost(Rebuilt(cfg), Resumed(cp, kernel), cfg.runCap) <==> BranchesOpened(kernel) == 0)
  {
    hide RunCalls, BranchesOpened, Blank, Receivable;
    var s := Resumed(cp, kernel);
    forall calls
      ensures BranchesOpened(RunCalls(Rebuilt(cfg), s, calls).w.kernel) <= BranchesOpened(kernel) + Room(cfg)
    {
      ResumedBounds(cfg, cp, kernel, calls);
    }
    BoundsAttained(cfg, cp, kernel);
    var calls := Openings(0, Room(cfg));
    assert BranchesOpened(RunCalls(Rebuilt(cfg), s, calls).w.kernel) == BranchesOpened(kernel) + Room(cfg);
  }

  /** After a resume the action budget is lost: only the branch limits still bound the actions.
      They stay within a budget in every schedule exactly when the actions counted before and
      what the branch limits admit from zero fit into it together. */
  lemma ResumedActionsExact(cfg: Config, cp: Checkpoint, kernel: seq<KernelEvent>, budget: int)
    requires !Blank(cp.runId)
    ensures ActsAtMost(Rebuilt(cfg), Resumed(cp, kernel), budget) <==> cp.actionSeq + Room(cfg) <= budget
  {
    hide RunCalls, BranchesOpened, Blank, Receivable;
    var s := Resumed(cp, kernel);
    forall calls
      ensures RunCalls(Rebuilt(cfg), s, calls).w.live.actionSeq <= cp.actionSeq + Room(cfg)
    {
      ResumedBounds(cfg, cp, kernel, calls);
    }
    BoundsAttained(cfg, cp, kernel);
    var calls := Openings(0, Room(cfg));
    assert RunCalls(Rebuilt(cfg), s, calls).w.live.actionSeq == cp.actionSeq + Room(cfg);
  }
}
