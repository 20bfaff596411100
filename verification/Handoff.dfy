/** Moving a run to a new executor through its RunContext. */
module Handoff {
  import opened Options
  import opened RunTypes
  import opened Identifiers
  import opened StageSpec
  import opened ActionProperties
  import opened StageOutcome
  import opened RunSessions

  // ----- What a stage call depends on -----

  /** The restorable state and the kernel log agree; recorded events and traces may differ. */
  ghost predicate Same(w: World, v: World) { w.live == v.live && w.kernel == v.kernel }

  lemma {:induction false} GatesSame(w: World, v: World, gates: seq<string>, lastRaises: bool)
    requires Same(w, v)
    ensures Same(GatesOpened(w, gates, lastRaises), GatesOpened(v, gates, lastRaises))
    decreases |gates|
  {
    if gates != [] && !(|gates| == 1 && lastRaises) {
      var ref := GateOpened(GateRef(w.live.runId, gates[0], w.live.gateSeq));
      GatesSame(Told(w.(live := w.live.(gateSeq := w.live.gateSeq + 1)), [ref]),
                Told(v.(live := v.live.(gateSeq := v.live.gateSeq + 1)), [ref]), gates[1..], lastRaises);
    }
  }

  lemma FinishedSame(w: World, v: World, a: Action)
    requires Same(w, v)
    ensures Same(Finished(w, a).0, Finished(v, a).0) && Finished(w, a).1 == Finished(v, a).1
  {
    hide GatesOpened;
    GatesSame(w, v, a.gates, a.finallyFault == AtGates);
    GatesSame(GatesOpened(w, a.gates, a.finallyFault == AtGates), GatesOpened(v, a.gates, a.finallyFault == AtGates),
              ["route_direction"], a.watchdog.GateRaises?);
  }

  lemma AcceptedSame(w: World, v: World, stage: string, a: Action, arts: seq<string>)
    requires Same(w, v)
    ensures var r, q := AcceptedAction(w, stage, a, arts), AcceptedAction(v, stage, a, arts);
      Same(r.w, q.w) && r.artifacts == q.artifacts && r.raised == q.raised
  {
    hide DecisionRef;
  }

  lemma TriedSame(w: World, v: World, stage: string, a: Action, arts: seq<string>)
    requires Same(w, v)
    ensures var r, q := Tried(w, stage, a, arts), Tried(v, stage, a, arts);
      Same(r.w, q.w) && r.artifacts == q.artifacts && r.raised == q.raised
  {
    hide AcceptedAction, NodeKey;
    var w0 := Traced(Recorded(w, ActionDispatched(stage, a.branch, arts)), stage, a.trace);
    var v0 := Traced(Recorded(v, ActionDispatched(stage, a.branch, arts)), stage, a.trace);
    AcceptedSame(WithNode(w0, stage, a, Succeeded), WithNode(v0, stage, a, Succeeded), stage, a, arts + a.artifacts);
  }

  lemma ExecutedSame(w: World, v: World, stage: string, a: Action, arts: seq<string>)
    requires Same(w, v)
    ensures var r, q := Executed(w, stage, a, arts), Executed(v, stage, a, arts);
      Same(r.w, q.w) && r.artifacts == q.artifacts && r.raised == q.raised
  {
    hide Tried, Finished;
    var w0, v0 := Opened(w, stage, a), Opened(v, stage, a);
    assert Same(w0, v0);
    TriedSame(w0, v0, stage, a, arts);
    FinishedSame(Tried(w0, stage, a, arts).w, Tried(v0, stage, a, arts).w, a);
  }

  lemma {:induction false} LoopSame(cfg: Config, w: World, v: World, stage: string, ps: seq<Action>, arts: seq<string>)
    requires Same(w, v)
    ensures var r, q := Loop(cfg, w, stage, ps, arts), Loop(cfg, v, stage, ps, arts);
      Same(r.w, q.w) && r.artifacts == q.artifacts && r.raised == q.raised
    decreases |ps|
  {
    hide Executed;
    if ps != [] && CheckBudget(cfg, w.live, stage).None? {
      var r, q := Executed(w, stage, ps[0], arts), Executed(v, stage, ps[0], arts);
      ExecutedSame(w, v, stage, ps[0], arts);
      if !r.raised { LoopSame(cfg, r.w, q.w, stage, ps[1..], r.artifacts); }
    }
  }

  ghost predicate SameResult(r: StageResult, q: StageResult) {
    Same(r.w, q.w) && r.ret == q.ret && r.synced == q.synced
  }

  lemma ClosedSame(cfg: Config, w: World, v: World, stage: string, mark: StageMark, s: Summary, fault: ClosingFault,
                   saves: bool, ret: Returned)
    requires Same(w, v)
    ensures SameResult(Closed(cfg, w, stage, mark, s, fault, saves, ret),
                       Closed(cfg, v, stage, mark, s, fault, saves, ret))
  {
  }

  lemma AfterLoopSame(cfg: Config, w: World, v: World, stage: string, arts: seq<string>, o: StageOracle)
    requires Same(w, v)
    ensures SameResult(AfterLoop(cfg, w, stage, arts, o), AfterLoop(cfg, v, stage, arts, o))
  {
    hide Closed, DeadEnd;
    var failed := Summary("failed", arts);
    var done := Summary(o.compressedOutcome, arts);
    var w1, v1 := w, v;
    if o.postHook.Verdict? {
      ClosedSame(cfg, w, v, stage, StageFailed, failed, o.postHook.fault, o.traceSaves, FailedStage);
      w1 := Closed(cfg, w, stage, StageFailed, failed, o.postHook.fault, o.traceSaves, FailedStage).w;
      v1 := Closed(cfg, v, stage, StageFailed, failed, o.postHook.fault, o.traceSaves, FailedStage).w;
    }
    ClosedSame(cfg, w1, v1, stage, StageFailed, failed, o.closing, o.traceSaves, FailedStage);
    ClosedSame(cfg, w1, v1, stage, StageCompleted, done, o.closing, o.traceSaves, Completed);
  }

  lemma SkippedSame(cfg: Config, w: World, v: World, stage: string, o: StageOracle)
    requires Same(w, v)
    ensures SameResult(Skipped(cfg, w, stage, o), Skipped(cfg, v, stage, o))
  {
  }

  /** A stage call's result, kernel effects and new state depend on the restorable state and
      the kernel only. */
  lemma StageSame(cfg: Config, w: World, v: World, stage: string, o: StageOracle)
    requires Same(w, v)
    ensures SameResult(StageStep(cfg, w, stage, o), StageStep(cfg, v, stage, o))
  {
    hide Loop, AfterLoop, Skipped;
    var w0, v0 := StageOpening(w, stage, o), StageOpening(v, stage, o);
    assert Same(w0, v0);
    SkippedSame(cfg, w0, v0, stage, o);
    LoopSame(cfg, w0, v0, stage, o.proposals, []);
    var l, m := Loop(cfg, w0, stage, o.proposals, []), Loop(cfg, v0, stage, o.proposals, []);
    AfterLoopSame(cfg, l.w, m.w, stage, l.artifacts, o);
  }

  // ----- Hand-off -----

  /** A new executor built from the session's context, with its own side channels. */
  function Restored(s: Session, run: string): Session
    requires s.ctx.Some?
  {
    Session(World(s.ctx.value.(runId := run), s.w.kernel, [], map[], []), s.ctx, true)
  }

  /** The context shows everything that the executor would continue from. */
  predicate Synced(s: Session) {
    s.ctx.Some? && s.ctx.value.(runId := s.w.live.runId) == s.w.live
  }

  lemma {:induction false} RunCallsAppend(cfg: Config, s: Session, a: seq<Call>, b: seq<Call>)
    ensures RunCalls(cfg, s, a + b) == RunCalls(cfg, RunCalls(cfg, s, a), b)
    decreases |a|
  {
    hide SessionStep;
    if a == [] {
      assert a + b == b;
    } else {
      assert (a + b)[1..] == a[1..] + b;
      RunCallsAppend(cfg, SessionStep(cfg, s, a[0]), a[1..], b);
    }
  }

  lemma {:induction false} RunCallsSame(cfg: Config, s: Session, t: Session, calls: seq<Call>)
    requires Same(s.w, t.w)
    ensures Same(RunCalls(cfg, s, calls).w, RunCalls(cfg, t, calls).w)
    decreases |calls|
  {
    hide StageStep;
    if calls != [] {
      StageSame(cfg, s.w, t.w, calls[0].stage, calls[0].oracle);
      RunCallsSame(cfg, SessionStep(cfg, s, calls[0]), SessionStep(cfg, t, calls[0]), calls[1..]);
    }
  }

  /** Every normal return except the budget skip is a sync point and ends the sharing of the
      dictionaries, which nothing else does. */
  lemma SyncPoint(cfg: Config, s: Session, c: Call)
    requires s.ctx.Some?
    ensures var r, t := StageStep(cfg, s.w, c.stage, c.oracle), SessionStep(cfg, s, c);
      if r.ret != Raised && !c.oracle.skip then Synced(t) && !t.shared else t.shared == s.shared
  {
    hide StageStep, Agrees;
    FinalStateAgreement(cfg, s.w, c.stage, c.oracle);
  }

  /** A context keeps its own run id in every schedule. */
  lemma {:induction false} ContextKeepsId(cfg: Config, s: Session, calls: seq<Call>)
    requires s.ctx.Some?
    ensures var e := RunCalls(cfg, s, calls); e.ctx.Some? && e.ctx.value.runId == s.ctx.value.runId
    decreases |calls|
  {
    hide StageStep;
    if calls != [] { ContextKeepsId(cfg, SessionStep(cfg, s, calls[0]), calls[1..]); }
  }

  /** Splitting a schedule at a sync point and running the second half on a new executor for
      the same run ends with the same DAG, summaries, counters and kernel log as never
      splitting, and so with the same identifiers. */
  lemma HandoffTransparent(cfg: Config, s: Session, first: seq<Call>, second: seq<Call>)
    requires Synced(RunCalls(cfg, s, first))
    ensures var m := RunCalls(cfg, s, first);
      Same(RunCalls(cfg, Restored(m, m.w.live.runId), second).w, RunCalls(cfg, s, first + second).w)
  {
    var m := RunCalls(cfg, s, first);
    RunCallsAppend(cfg, s, first, second);
    RunCallsSame(cfg, Restored(m, m.w.live.runId), m, second);
  }

  /** If the summary of the budget-skip exit could be built, that exit would return and would
      still be no sync point: the new executor would lack the skipped stage's summary. */
  lemma SkipLosesSummary(cfg: Config, s: Session, c: Call)
    requires s.ctx.Some? && !s.shared && c.stage !in s.ctx.value.summaries
    requires c.oracle.skip && StageStep(cfg, s.w, c.stage, c.oracle).ret == Completed
    ensures var t := SessionStep(cfg, s, c);
      c.stage in t.w.live.summaries && c.stage !in Restored(t, t.w.live.runId).w.live.summaries && !Synced(t)
  {
    hide StageStep, LastMark;
    FinalStateAgreement(cfg, s.w, c.stage, c.oracle);
  }

  /** In the shipped program the skip raises behind its COMPLETED mark. From a synced session it
      leaves the context as it was, so the session stays synced exactly when the skipped stage
      was the current one already; executor and context both know no more of the stage than
      before. */
  lemma ShippedSkipUnsynced(cfg: Config, s: Session, c: Call)
    requires Synced(s) && Shipped(cfg) && c.oracle.skip && !c.oracle.closing.AtStageMark?
    requires !c.oracle.opening.AtOpenStage? && !c.oracle.opening.AtMarkStageActive?
    ensures var t := SessionStep(cfg, s, c);
      && t.ctx == s.ctx && t.w.live.summaries == s.w.live.summaries
      && LastMark(t.w.kernel, c.stage) == Some(StageCompleted)
      && (Synced(t) <==> c.stage == s.w.live.currentStage)
  {
    hide StageStep, LastMark, KeywordsFit;
    ShippedSkip(cfg, s.w, c.stage, c.oracle);
  }

  // ----- Hand-off away from sync points -----

  /** The executor and the context it may hand over both respect the limits. */
  ghost predicate BothWithin(cfg: Config, s: Session) {
    Within(cfg, s.w.live) && (s.ctx.Some? ==> Within(cfg, s.ctx.value))
  }

  /** A stage call, or a new executor built from the context as it happens to be. */
  datatype Move = Stage(call: Call) | NewExecutor(run: string)

  function RunMoves(cfg: Config, s: Session, moves: seq<Move>): Session
    decreases |moves|
  {
    if moves == [] then s
    else
      var next :=
        match moves[0]
        case Stage(call) => SessionStep(cfg, s, call)
        case NewExecutor(run) => if s.ctx.Some? then Restored(s, run) else s;
      RunMoves(cfg, next, moves[1..])
  }

  lemma BothWithinStep(cfg: Config, s: Session, c: Call)
    requires BothWithin(cfg, s)
    ensures BothWithin(cfg, SessionStep(cfg, s, c))
  {
    hide StageStep, Conserved, Accounted;
    StageLimits(cfg, s.w, c.stage, c.oracle);
  }

  /** The limits hold in every schedule with hand-offs at any moment, synced or not. */
  lemma {:induction false} LimitsAcrossHandoffs(cfg: Config, s: Session, moves: seq<Move>)
    requires BothWithin(cfg, s)
    ensures BothWithin(cfg, RunMoves(cfg, s, moves))
    decreases |moves|
  {
    hide SessionStep;
    if moves != [] {
      match moves[0]
      case Stage(call) =>
        BothWithinStep(cfg, s, call);
        LimitsAcrossHandoffs(cfg, SessionStep(cfg, s, call), moves[1..]);
      case NewExecutor(run) =>
        LimitsAcrossHandoffs(cfg, if s.ctx.Some? then Restored(s, run) else s, moves[1..]);
    }
  }

  /** Counts are consistent here and in the context, and shared dictionaries look the same
      from both sides. */
  ghost predicate Linked(s: Session) {
    && Conserved(s.w.live)
    && (s.ctx.Some? && !s.shared ==> Conserved(s.ctx.value))
    && (s.ctx.Some? && s.shared ==> s.ctx.value.stageBranches == s.w.live.stageBranches)
  }

  lemma LinkedStep(cfg: Config, s: Session, c: Call)
    requires Linked(s)
    ensures Linked(SessionStep(cfg, s, c))
  {
    hide StageStep, Sum, Accounted, Within;
    StageLimits(cfg, s.w, c.stage, c.oracle);
  }

  /** A hand-off keeps the run total equal to the sum of the stage counts exactly when the
      dictionaries are no longer shared or no branch was counted since they were taken
      over: a raise before the first sync leaves the context torn. */
  lemma HandoffConservedExact(s: Session, run: string)
    requires Linked(s) && s.ctx.Some?
    ensures Linked(Restored(s, run)) <==> Conserved(Restored(s, run).w.live)
    ensures Conserved(Restored(s, run).w.live) <==> !s.shared || s.ctx.value.totalBranches == s.w.live.totalBranches
  {
  }

  /** A torn context exists: one action that raises in an executor just built from a context
      leaves its branch in the shared counts but not in the context's total. */
  lemma RaiseTearsContext(cfg: Config, s: Session, c: Call, a: Action)
    requires Linked(s) && s.ctx.Some? && s.shared && s.ctx.value.totalBranches == s.w.live.totalBranches
    requires CheckBudget(cfg, s.w.live, c.stage).None?
    requires c.oracle.opening.OpeningOk? && !c.oracle.skip && c.oracle.proposals == [a] && Raises(a)
    ensures var t := SessionStep(cfg, s, c);
      t.shared && !Conserved(Restored(t, t.w.live.runId).w.live)
  {
    hide Executed, Raises, Sum, AfterLoop, Within, OnlyGates, Accounted;
    LinkedStep(cfg, s, c);
    var w0 := StageOpening(s.w, c.stage, c.oracle);
    ActionEffect(w0, c.stage, a, []);
    assert CheckBudget(cfg, w0.live, c.stage).None?;
    assert Loop(cfg, w0, c.stage, [a], []) == Executed(w0, c.stage, a, []);
  }
}
