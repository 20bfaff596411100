/** No reference, of a decision or of a gate, is ever told to the kernel twice. */
module Freshness {
  import opened RunTypes
  import opened Identifiers
  import opened StageSpec
  import opened ActionProperties
  import opened BranchAgreement

  function RefOf(e: KernelEvent): seq<string> {
    if e.DecisionBound? then [e.decisionRef] else []
  }

  /** All references bound or opened so far are this run's, distinct, and below their
      counters. */
  ghost predicate Fresh(w: World) {
    && Issued(DecisionKind, w.live.runId, Project(w.kernel, RefOf), w.live.decisionSeq)
    && Issued(GateKind, w.live.runId, Project(w.kernel, GateOf), w.live.gateSeq)
  }

  /** The reference that an event tells the kernel about, as a list of at most one. */
  function AnyRefOf(e: KernelEvent): seq<string> { RefOf(e) + GateOf(e) }

  /** No two events of the log carry the same reference. */
  ghost predicate AllDistinct(log: seq<KernelEvent>) {
    forall i, j :: 0 <= i < j < |log| && AnyRefOf(log[i]) != [] ==> AnyRefOf(log[i]) != AnyRefOf(log[j])
  }

  lemma {:induction false} ProjectHas(log: seq<KernelEvent>, f: KernelEvent -> seq<string>, i: nat, x: string)
    requires i < |log| && f(log[i]) == [x]
    ensures x in Project(log, f)
  {
    if i < |log| - 1 { ProjectHas(log[..|log| - 1], f, i, x); }
  }

  /** Where the projected references are distinct, so are those at any two positions. */
  lemma {:induction false} DistinctPositions(log: seq<KernelEvent>, f: KernelEvent -> seq<string>, i: nat, j: nat,
                                             x: string)
    requires forall a, b :: 0 <= a < b < |Project(log, f)| ==> Project(log, f)[a] != Project(log, f)[b]
    requires i < j < |log| && f(log[i]) == [x]
    ensures f(log[j]) != [x]
  {
    var init := log[..|log| - 1];
    var refs, last := Project(init, f), f(log[|log| - 1]);
    assert Project(log, f) == refs + last;
    if j < |log| - 1 {
      assert forall a :: 0 <= a < |refs| ==> Project(log, f)[a] == refs[a];
      DistinctPositions(init, f, i, j, x);
    } else if last == [x] {
      ProjectHas(init, f, i, x);
      var a :| 0 <= a < |refs| && refs[a] == x;
      assert Project(log, f)[a] == Project(log, f)[|refs|];
    }
  }

  /** Fresh references are distinct over both kinds: a gate reference is never a decision
      reference. */
  lemma FreshDistinct(w: World)
    requires Fresh(w)
    ensures AllDistinct(w.kernel)
  {
    hide Project, Carries;
    var log := w.kernel;
    forall i, j | 0 <= i < j < |log| && AnyRefOf(log[i]) != []
      ensures AnyRefOf(log[i]) != AnyRefOf(log[j])
    {
      if AnyRefOf(log[i]) == AnyRefOf(log[j]) {
        var x := AnyRefOf(log[i])[0];
        assert AnyRefOf(log[i]) == [x];
        if RefOf(log[i]) == RefOf(log[j]) == [x] {
          DistinctPositions(log, RefOf, i, j, x);
        } else if GateOf(log[i]) == GateOf(log[j]) == [x] {
          DistinctPositions(log, GateOf, i, j, x);
        } else {
          KindsApart(w, x, if RefOf(log[i]) == [x] then i else j, if RefOf(log[i]) == [x] then j else i);
        }
      }
    }
  }

  lemma KindsApart(w: World, x: string, d: nat, g: nat)
    requires Fresh(w) && d < |w.kernel| && g < |w.kernel|
    ensures !(RefOf(w.kernel[d]) == [x] && GateOf(w.kernel[g]) == [x])
  {
    hide Project, Carries;
    if RefOf(w.kernel[d]) == [x] && GateOf(w.kernel[g]) == [x] {
      ProjectHas(w.kernel, RefOf, d, x);
      ProjectHas(w.kernel, GateOf, g, x);
      var run := w.live.runId;
      assert CarriesBelow(DecisionKind, run, x, w.live.decisionSeq);
      assert CarriesBelow(GateKind, run, x, w.live.gateSeq);
      var m: nat :| m < w.live.decisionSeq && Carries(DecisionKind, run, x, m);
      var n: nat :| n < w.live.gateSeq && Carries(GateKind, run, x, n);
      NumberUnique(x, DecisionKind, run, m, GateKind, run, n);
    }
  }

  /** One gate takes the next number. */
  lemma GateFresh(w: World, gateType: string)
    requires Issued(GateKind, w.live.runId, Project(w.kernel, GateOf), w.live.gateSeq)
    ensures Issued(GateKind, w.live.runId, Project(w.kernel, GateOf), w.live.gateSeq + 1)
    ensures Issued(GateKind, w.live.runId,
                   Project(w.kernel + [GateOpened(GateRef(w.live.runId, gateType, w.live.gateSeq))], GateOf),
                   w.live.gateSeq + 1)
  {
    hide Issued, Project, GateRef, Carries;
    var n := w.live.gateSeq;
    var ref := GateRef(w.live.runId, gateType, n);
    IssuedBelowMore(GateKind, w.live.runId, Project(w.kernel, GateOf), n, n + 1);
    MadeRefsCarry(w.live.runId, "", "", gateType, n);
    IssueNext(GateKind, w.live.runId, Project(w.kernel, GateOf), n, ref);
    ProjectAppend(w.kernel, [GateOpened(ref)], GateOf);
    Single(GateOpened(ref), GateOf);
  }

  lemma {:induction false} GatesFresh(w: World, gates: seq<string>, lastRaises: bool)
    requires Issued(GateKind, w.live.runId, Project(w.kernel, GateOf), w.live.gateSeq)
    ensures var r := GatesOpened(w, gates, lastRaises);
      Issued(GateKind, r.live.runId, Project(r.kernel, GateOf), r.live.gateSeq)
    decreases |gates|
  {
    hide Issued, Project, GateRef;
    if gates != [] {
      GateFresh(w, gates[0]);
      if !(|gates| == 1 && lastRaises) {
        var n := w.live.gateSeq;
        var numbered := w.(live := w.live.(gateSeq := n + 1));
        GatesFresh(Told(numbered, [GateOpened(GateRef(w.live.runId, gates[0], n))]), gates[1..], lastRaises);
      }
    }
  }

  lemma {:induction false} ProjectNone<T>(log: seq<KernelEvent>, f: KernelEvent -> seq<T>)
    requires forall i :: 0 <= i < |log| ==> f(log[i]) == []
    ensures Project(log, f) == []
  {
    if log != [] { ProjectNone(log[..|log| - 1], f); }
  }

  lemma AppendNone<T>(a: seq<KernelEvent>, b: seq<KernelEvent>, f: KernelEvent -> seq<T>)
    requires forall i :: 0 <= i < |b| ==> f(b[i]) == []
    ensures Project(a + b, f) == Project(a, f)
  {
    ProjectAppend(a, b, f);
    ProjectNone(b, f);
  }

  lemma FinishedFresh(w: World, a: Action)
    requires Issued(GateKind, w.live.runId, Project(w.kernel, GateOf), w.live.gateSeq)
    ensures var r := Finished(w, a).0; Issued(GateKind, r.live.runId, Project(r.kernel, GateOf), r.live.gateSeq)
  {
    hide Issued, Project, GatesOpened;
    GatesFresh(w, a.gates, a.finallyFault == AtGates);
    GatesFresh(GatesOpened(w, a.gates, a.finallyFault == AtGates), ["route_direction"], a.watchdog.GateRaises?);
  }

  lemma ActionGatesFresh(w: World, stage: string, a: Action, arts: seq<string>)
    requires Issued(GateKind, w.live.runId, Project(w.kernel, GateOf), w.live.gateSeq)
    ensures var r := Executed(w, stage, a, arts);
      Issued(GateKind, r.w.live.runId, Project(r.w.kernel, GateOf), r.w.live.gateSeq)
  {
    hide Issued, Project, Finished;
    var w0 := Opened(w, stage, a);
    OpenedEffect(w, stage, a);
    AppendNone(w.kernel, OpenLog(stage, a), GateOf);
    if a.openFault.OpenOk? {
      TriedEffect(w0, stage, a, arts);
      AppendNone(w0.kernel, BodyLog(w.live.runId, stage, a, w.live.decisionSeq), GateOf);
      FinishedFresh(Tried(w0, stage, a, arts).w, a);
    }
  }

  lemma ActionDecisionsFresh(w: World, stage: string, a: Action, arts: seq<string>)
    requires Issued(DecisionKind, w.live.runId, Project(w.kernel, RefOf), w.live.decisionSeq)
    ensures var r := Executed(w, stage, a, arts);
      Issued(DecisionKind, r.w.live.runId, Project(r.w.kernel, RefOf), r.w.live.decisionSeq)
  {
    hide Executed;
    ActionEffect(w, stage, a, arts);
    DecisionsFresh(w, stage, a, Executed(w, stage, a, arts).w.kernel);
  }

  lemma DecisionsFresh(w: World, stage: string, a: Action, log: seq<KernelEvent>)
    requires Issued(DecisionKind, w.live.runId, Project(w.kernel, RefOf), w.live.decisionSeq)
    requires ActionLog(w, stage, a, log)
    ensures Issued(DecisionKind, w.live.runId, Project(log, RefOf),
                   w.live.decisionSeq + if a.openFault.OpenOk? && TakesDecision(a) then 1 else 0)
  {
    hide Issued, Project, BodyLog, OpenLog, ActionLog, DecisionRef, Carries;
    var n := w.live.decisionSeq;
    var refs := Project(w.kernel, RefOf);
    ActionLogProjects(w, stage, a, log, RefOf);
    OpenRefs(stage, a);
    BodyRefs(w.live.runId, stage, a, n);
    IssuedBelowMore(DecisionKind, w.live.runId, refs, n, n + 1);
    MadeRefsCarry(w.live.runId, stage, a.branch, "", n);
    IssueNext(DecisionKind, w.live.runId, refs, n, DecisionRef(w.live.runId, stage, a.branch, n));
    assert refs + [] == refs;
  }

  lemma OpenRefs(stage: string, a: Action)
    ensures Project(OpenLog(stage, a), RefOf) == []
  {
    ProjectNone(OpenLog(stage, a), RefOf);
  }

  /** The `try` body binds at most the one reference that it numbered itself. */
  lemma BodyRefs(run: string, stage: string, a: Action, n: nat)
    ensures var refs := Project(BodyLog(run, stage, a, n), RefOf);
      refs == [] || (refs == [DecisionRef(run, stage, a.branch, n)] && TakesDecision(a))
  {
    var body := BodyLog(run, stage, a, n);
    if TakesDecision(a) && !a.bodyFault.AtBind? {
      assert body[..2] == [body[0]] + [body[1]];
      Split2(body[0], body[1], RefOf);
      AppendNone(body[..2], body[2..], RefOf);
      assert body == body[..2] + body[2..];
    } else {
      ProjectNone(body, RefOf);
    }
  }

  lemma {:induction false} LoopFresh(cfg: Config, w: World, stage: string, ps: seq<Action>, arts: seq<string>)
    requires Fresh(w)
    ensures Fresh(Loop(cfg, w, stage, ps, arts).w)
    decreases |ps|
  {
    hide Executed, Issued, Project;
    if ps != [] && CheckBudget(cfg, w.live, stage).None? {
      var r := Executed(w, stage, ps[0], arts);
      ActionGatesFresh(w, stage, ps[0], arts);
      ActionDecisionsFresh(w, stage, ps[0], arts);
      if !r.raised { LoopFresh(cfg, r.w, stage, ps[1..], r.artifacts); }
    }
  }

  /** Telling the kernel about stages keeps freshness. */
  lemma StageEventsFresh(w: World, v: World, events: seq<KernelEvent>)
    requires Fresh(w) && v.kernel == w.kernel + events && v.live.runId == w.live.runId
    requires v.live.decisionSeq == w.live.decisionSeq && v.live.gateSeq == w.live.gateSeq
    requires forall i :: 0 <= i < |events| ==> events[i].StageOpened? || events[i].StageMarked?
    ensures Fresh(v)
  {
    AppendNone(w.kernel, events, RefOf);
    AppendNone(w.kernel, events, GateOf);
  }

  lemma ClosedFresh(cfg: Config, w: World, stage: string, mark: StageMark, s: Summary, fault: ClosingFault,
                    saves: bool, ret: Returned)
    requires Fresh(w)
    ensures Fresh(Closed(cfg, w, stage, mark, s, fault, saves, ret).w)
  {
    hide Fresh;
    StageEventsFresh(w, w, []);
    var r := Closed(cfg, w, stage, mark, s, fault, saves, ret).w;
    if fault != AtStageMark { StageEventsFresh(w, r, [StageMarked(stage, mark)]); }
  }

  /** Every stage call keeps all references distinct, whatever raises in it. */
  lemma StageFresh(cfg: Config, w: World, stage: string, o: StageOracle)
    requires Fresh(w)
    ensures Fresh(StageStep(cfg, w, stage, o).w)
  {
    hide Fresh, Loop, Closed, DeadEnd, TracePersisted;
    var w0 := StageOpening(w, stage, o);
    var opening := w0.kernel[|w.kernel|..];
    StageEventsFresh(w, w0, opening);
    if o.skip {
      StageEventsFresh(w0, w0, []);
      SkippedFresh(cfg, w0, stage, o);
    } else if !o.opening.AtOpenStage? && !o.opening.AtMarkStageActive? && !o.opening.BeforeLoop? {
      LoopFresh(cfg, w0, stage, o.proposals, []);
      var l := Loop(cfg, w0, stage, o.proposals, []);
      if !l.raised { AfterLoopFresh(cfg, l.w, stage, l.artifacts, o); }
    }
  }

  lemma SkippedFresh(cfg: Config, w: World, stage: string, o: StageOracle)
    requires Fresh(w)
    ensures Fresh(Skipped(cfg, w, stage, o).w)
  {
    hide Fresh;
    StageEventsFresh(w, Recorded(w, StageSkippedByBudget(stage)), []);
    if !o.closing.AtStageMark? {
      StageEventsFresh(w, Skipped(cfg, w, stage, o).w, [StageMarked(stage, StageCompleted)]);
    }
  }

  lemma AfterLoopFresh(cfg: Config, w: World, stage: string, arts: seq<string>, o: StageOracle)
    requires Fresh(w)
    ensures Fresh(AfterLoop(cfg, w, stage, arts, o).w)
  {
    hide Fresh, Closed, DeadEnd;
    var failed := Summary("failed", arts);
    var w1 := w;
    if o.postHook.Verdict? {
      ClosedFresh(cfg, w, stage, StageFailed, failed, o.postHook.fault, o.traceSaves, FailedStage);
      w1 := Closed(cfg, w, stage, StageFailed, failed, o.postHook.fault, o.traceSaves, FailedStage).w;
    }
    ClosedFresh(cfg, w1, stage, StageFailed, failed, o.closing, o.traceSaves, FailedStage);
    ClosedFresh(cfg, w1, stage, StageCompleted, Summary(o.compressedOutcome, arts), o.closing, o.traceSaves, Completed);
  }
}
