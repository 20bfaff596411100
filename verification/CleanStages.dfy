/** Stage calls that return normally, in terms of the state they started from. */
module CleanStages {
  import opened Options
  import opened RunTypes
  import opened Identifiers
  import opened StageSpec
  import opened ActionProperties
  import opened BranchAgreement
  import opened StageOutcome
  import opened DeadEnds
  import opened RunSessions

  /** The proposals that a loop starting in `live` executes when it does not raise. */
  function Prefix(cfg: Config, live: Exec, stage: string, ps: seq<Action>): seq<Action> {
    ps[..Admitted(cfg, live, stage, |ps|)]
  }

  /** The exhaustion event, when proposals are left over. */
  function LeftOver(cfg: Config, live: Exec, stage: string, ps: seq<Action>): seq<RunEvent> {
    var n := Admitted(cfg, live, stage, |ps|);
    if n == |ps| then []
    else if cfg.maxActions.Some? && live.actionSeq + n >= cfg.maxActions.value
    then [BudgetExhausted(stage, ExecutionBudgetExhausted)]
    else [BudgetExhausted(stage, ExplorationBudgetExhausted)]
  }

  /** A loop that does not raise is the run of its admitted prefix and at most one event. */
  lemma CleanLoop(cfg: Config, w: World, stage: string, ps: seq<Action>, arts: seq<string>)
    requires !Loop(cfg, w, stage, ps, arts).raised
    ensures var did := Prefix(cfg, w.live, stage, ps);
      var l := Loop(cfg, w, stage, ps, arts);
      var r := RunAll(w, stage, did, arts);
      && AllClean(did) && !r.raised
      && l == r.(w := r.w.(events := r.w.events + LeftOver(cfg, w.live, stage, ps)))
      && r.w.events == w.events + Dispatches(stage, did, arts)
      && r.artifacts == arts + Artifacts(did)
      && r.w.live.actionSeq == w.live.actionSeq + |did|
      && r.w.live.totalBranches == w.live.totalBranches + |did|
      && StageCount(r.w.live.stageBranches, stage) == StageCount(w.live.stageBranches, stage) + |did|
      && r.w.live.decisionSeq == w.live.decisionSeq + |Accepted(did)|
  {
    hide Loop, RunAll, Raises, Accepted, Artifacts, Dispatches;
    ExactConsumption(cfg, w, stage, ps, arts);
    var did := Prefix(cfg, w.live, stage, ps);
    RunCounters(w, stage, did, arts);
    var r := RunAll(w, stage, did, arts);
    assert r.w.events + [] == r.w.events;
  }

  // ----- Reasoning traces -----

  function TraceOf(w: World, stage: string): Option<seq<string>> {
    var key := (w.live.runId, stage);
    if key in w.traces then Some(w.traces[key]) else None
  }

  /** A trace after some actions appended to it; accessing it creates it. */
  function Steps(before: Option<seq<string>>, ps: seq<Action>): Option<seq<string>>
    decreases |ps|
  {
    if ps == [] then before
    else if ps[0].trace.None? then Steps(before, ps[1..])
    else Steps(Some((if before.Some? then before.value else []) + ps[0].trace.value), ps[1..])
  }

  lemma ActionTrace(w: World, stage: string, a: Action, arts: seq<string>)
    requires !Raises(a)
    ensures TraceOf(Executed(w, stage, a, arts).w, stage) == Steps(TraceOf(w, stage), [a])
  {
    hide Finished, Told, FailedAction, RejectedAction, AcceptedAction, NodeKey;
    var w0 := Opened(w, stage, a);
    TriedTrace(w0, stage, a, arts);
    FinishedFrame(Tried(w0, stage, a, arts).w, a);
    OpenedTrace(w, stage, a);
    assert [a][1..] == [];
  }

  lemma OpenedTrace(w: World, stage: string, a: Action)
    ensures Opened(w, stage, a).traces == w.traces && Opened(w, stage, a).live.runId == w.live.runId
  {
  }

  lemma AcceptedTrace(w: World, stage: string, a: Action, arts: seq<string>)
    ensures var t := AcceptedAction(w, stage, a, arts).w; t.traces == w.traces && t.live.runId == w.live.runId
  {
    hide DecisionRef;
  }

  lemma TriedTrace(w: World, stage: string, a: Action, arts: seq<string>)
    ensures var t := Tried(w, stage, a, arts).w;
      t.traces == Traced(w, stage, a.trace).traces && t.live.runId == w.live.runId
  {
    hide KeyOf, AcceptedAction;
    var w0 := Traced(Recorded(w, ActionDispatched(stage, a.branch, arts)), stage, a.trace);
    AcceptedTrace(WithNode(w0, stage, a, Succeeded), stage, a, arts + a.artifacts);
  }

  lemma {:induction false} RunTrace(w: World, stage: string, ps: seq<Action>, arts: seq<string>)
    requires AllClean(ps)
    ensures TraceOf(RunAll(w, stage, ps, arts).w, stage) == Steps(TraceOf(w, stage), ps)
    decreases |ps|
  {
    hide Executed, Raises, TraceOf, OnlyGates;
    if ps != [] {
      var r := Executed(w, stage, ps[0], arts);
      assert !r.raised by { ActionEffect(w, stage, ps[0], arts); }
      RunAllStep(w, stage, ps, arts, r);
      ActionTrace(w, stage, ps[0], arts);
      assert [ps[0]][1..] == [];
      RunTrace(r.w, stage, ps[1..], r.artifacts);
    }
  }

  function Flushed(cfg: Config, stage: string, t: Option<seq<string>>, saves: bool): seq<(string, seq<string>)> {
    if t.Some? && cfg.hasStore && saves then [(stage, t.value)] else []
  }

  lemma ClosedFlush(cfg: Config, w: World, stage: string, mark: StageMark, s: Summary, fault: ClosingFault,
                    saves: bool, ret: Returned)
    ensures var r := Closed(cfg, w, stage, mark, s, fault, saves, ret);
      if fault.ClosingOk? then r.w.saved == w.saved + Flushed(cfg, stage, TraceOf(w, stage), saves)
      else r.ret == Raised && r.w.saved == w.saved && r.w.traces == w.traces && r.w.live.runId == w.live.runId
  {
  }

  lemma AfterLoopFlush(cfg: Config, w: World, stage: string, arts: seq<string>, o: StageOracle)
    requires AfterLoop(cfg, w, stage, arts, o).ret != Raised
    ensures AfterLoop(cfg, w, stage, arts, o).w.saved
         == w.saved + Flushed(cfg, stage, TraceOf(w, stage), o.traceSaves)
  {
    hide Closed, Flushed, DeadEnd;
    var failed := Summary("failed", arts);
    var done := Summary(o.compressedOutcome, arts);
    ClosedFlush(cfg, w, stage, StageFailed, failed, o.closing, o.traceSaves, FailedStage);
    ClosedFlush(cfg, w, stage, StageCompleted, done, o.closing, o.traceSaves, Completed);
    if o.postHook.Verdict? {
      ClosedFlush(cfg, w, stage, StageFailed, failed, o.postHook.fault, o.traceSaves, FailedStage);
      var v := Closed(cfg, w, stage, StageFailed, failed, o.postHook.fault, o.traceSaves, FailedStage).w;
      ClosedFlush(cfg, v, stage, StageFailed, failed, o.closing, o.traceSaves, FailedStage);
      ClosedFlush(cfg, v, stage, StageCompleted, done, o.closing, o.traceSaves, Completed);
      ClosedAgrees(cfg, w, stage, StageFailed, failed, o.postHook.fault, o.traceSaves, FailedStage);
    }
  }

  /** There is a trace to flush exactly when there was one already or some action accessed
      it. */
  lemma {:induction false} StepsPresent(before: Option<seq<string>>, ps: seq<Action>)
    ensures Steps(before, ps).Some? <==> before.Some? || exists a :: a in ps && a.trace.Some?
    decreases |ps|
  {
    if ps != [] {
      var rest := ps[1..];
      assert ps == [ps[0]] + rest;
      StepsPresent(if ps[0].trace.None? then before
                   else Some((if before.Some? then before.value else []) + ps[0].trace.value), rest);
    }
  }

  /** The trace that a stage call which returns normally finds at its end. */
  lemma LoopFlush(cfg: Config, w: World, stage: string, o: StageOracle)
    ensures var l := Loop(cfg, w, stage, o.proposals, []);
      var r := AfterLoop(cfg, l.w, stage, l.artifacts, o);
      !l.raised && r.ret != Raised ==>
        r.w.saved == w.saved
          + Flushed(cfg, stage, Steps(TraceOf(w, stage), Prefix(cfg, w.live, stage, o.proposals)), o.traceSaves)
  {
    hide Loop, AfterLoop, RunAll, Raises, Prefix, LeftOver, Dispatches, Artifacts, Steps, Flushed, TraceOf;
    var did := Prefix(cfg, w.live, stage, o.proposals);
    var l := Loop(cfg, w, stage, o.proposals, []);
    if !l.raised && AfterLoop(cfg, l.w, stage, l.artifacts, o).ret != Raised {
      CleanLoop(cfg, w, stage, o.proposals, []);
      RunTrace(w, stage, did, []);
      AfterLoopFlush(cfg, l.w, stage, l.artifacts, o);
      TraceOfSame(l.w, RunAll(w, stage, did, []).w, stage);
      LoopGrows(cfg, w, stage, o.proposals, []);
    }
  }

  /** A normal return, the skip aside, writes a reasoning trace to the store exactly when there
      is a store, saving works, and some executed action, or an earlier raised call of the
      stage, accessed the trace; the documentation promises a write in any case. */
  lemma TraceWrittenExact(cfg: Config, w: World, stage: string, o: StageOracle)
    ensures var r := StageStep(cfg, w, stage, o);
      r.ret != Raised && !o.skip ==>
        (r.w.saved != w.saved <==>
           && cfg.hasStore && o.traceSaves
           && ((w.live.runId, stage) in w.traces
               || exists a :: a in Prefix(cfg, w.live, stage, o.proposals) && a.trace.Some?))
  {
    hide Loop, AfterLoop, Skipped, Steps, Admitted;
    if StageStep(cfg, w, stage, o).ret != Raised && !o.skip {
      var w0 := StageOpening(w, stage, o);
      var did := Prefix(cfg, w.live, stage, o.proposals);
      AdmittedIgnoresStage(cfg, w.live, stage, |o.proposals|);
      assert did == Prefix(cfg, w0.live, stage, o.proposals);
      LoopFlush(cfg, w0, stage, o);
      StepsPresent(TraceOf(w0, stage), did);
      var more := Flushed(cfg, stage, Steps(TraceOf(w0, stage), did), o.traceSaves);
      assert (w.saved + more)[|w.saved|..] == more;
    }
  }

  const QUIET_STAGE := StageOracle(OpeningOk, false, [], NoVerdict, ClosingOk, "ok", true)

  /** A new executor with a store that works: a stage without proposals returns normally and
      writes no trace. */
  lemma QuietStageWritesNothing(run: string, stage: string)
    ensures var r := StageStep(Config(None, 1, 1, false, true), FreshSession(run).w, stage, QUIET_STAGE);
      r.ret == Completed && r.w.saved == []
  {
    var w := FreshSession(run).w;
    assert StageOpening(w, stage, QUIET_STAGE).live.dag == map[];
  }

  // ----- The whole call -----

  /** The executed proposals, their artifacts in the summary, one new DAG key each, and the
      stage's reasoning steps flushed at most once and completely. */
  ghost predicate Executes(cfg: Config, w: World, stage: string, o: StageOracle, r: StageResult) {
    var did := Prefix(cfg, w.live, stage, o.proposals);
    && AllClean(did)
    && r.w.live.actionSeq == w.live.actionSeq + |did|
    && |r.w.live.dag| == |w.live.dag| + |did|
    && KeysBelow(r.w.live.dag, r.w.live.actionSeq)
    && stage in r.w.live.summaries && r.w.live.summaries[stage].artifacts == Artifacts(did)
    && r.w.saved == w.saved + Flushed(cfg, stage, Steps(TraceOf(w, stage), did), o.traceSaves)
  }

  /** Nothing that was ever tried for the stage, this time or before, can still succeed. */
  ghost predicate NothingLeft(cfg: Config, live: Exec, stage: string, ps: seq<Action>) {
    var did := Prefix(cfg, live, stage, ps);
    && Accepted(did) == []
    && (forall k :: k in live.dag && live.dag[k].stage == stage ==> Hopeless(live.dag[k]))
    && (did != [] || exists k :: k in live.dag && live.dag[k].stage == stage)
  }

  lemma LoopVerdict(cfg: Config, w: World, stage: string, ps: seq<Action>)
    requires !Loop(cfg, w, stage, ps, []).raised && KeysBelow(w.live.dag, w.live.actionSeq)
    ensures DeadEnd(Loop(cfg, w, stage, ps, []).w.live.dag, stage) <==> NothingLeft(cfg, w.live, stage, ps)
  {
    hide Loop, RunAll, DeadEnd, KeysBelow, Raises, Prefix, LeftOver, Dispatches;
    CleanLoop(cfg, w, stage, ps, []);
    DeadEndAfter(w, stage, Prefix(cfg, w.live, stage, ps), []);
  }

  lemma LoopExecutes(cfg: Config, w: World, stage: string, o: StageOracle, r: StageResult)
    requires KeysBelow(w.live.dag, w.live.actionSeq)
    ensures var l := Loop(cfg, w, stage, o.proposals, []);
      !l.raised && r == AfterLoop(cfg, l.w, stage, l.artifacts, o) && r.ret != Raised ==> Executes(cfg, w, stage, o, r)
  {
    hide Loop, AfterLoop, RunAll, DeadEnd, KeysBelow, Raises, Prefix, LeftOver, Dispatches, Artifacts, Steps, Flushed,
         TraceOf, Agrees, NodeKey, KeyAt;
    var l := Loop(cfg, w, stage, o.proposals, []);
    if !l.raised && r == AfterLoop(cfg, l.w, stage, l.artifacts, o) && r.ret != Raised {
      var did := Prefix(cfg, w.live, stage, o.proposals);
      CleanLoop(cfg, w, stage, o.proposals, []);
      RunAddsKeys(w, stage, did, []);
      AfterLoopAgrees(cfg, l.w, stage, l.artifacts, o);
      LoopFlush(cfg, w, stage, o);
      assert [] + Artifacts(did) == Artifacts(did);
      assert stage in r.w.live.summaries by { InSummaries(cfg, l.w, stage, l.artifacts, o); }
    }
  }

  lemma InSummaries(cfg: Config, w: World, stage: string, arts: seq<string>, o: StageOracle)
    requires AfterLoop(cfg, w, stage, arts, o).ret != Raised
    ensures stage in AfterLoop(cfg, w, stage, arts, o).w.live.summaries
  {
    hide AfterLoop, LastMark;
    AfterLoopAgrees(cfg, w, stage, arts, o);
  }

  /** What a normal return from a stage call that was not skipped says. */
  ghost predicate ReturnsRight(cfg: Config, w: World, stage: string, o: StageOracle) {
    var r := StageStep(cfg, w, stage, o);
    r.ret != Raised && !o.skip ==>
      && Executes(cfg, w, stage, o, r)
      && (r.ret == FailedStage <==> o.postHook == Verdict(ClosingOk) || NothingLeft(cfg, w.live, stage, o.proposals))
  }

  /** A stage call that returns normally and was not skipped executed exactly the admitted
      proposals. With all DAG keys older than the action counter it returned "failed" exactly
      when a middleware verdict went through or nothing tried for the stage can succeed. */
  lemma NormalReturn(cfg: Config, w: World, stage: string, o: StageOracle)
    requires KeysBelow(w.live.dag, w.live.actionSeq)
    ensures ReturnsRight(cfg, w, stage, o)
  {
    hide Loop, AfterLoop, DeadEnd, KeysBelow, Agrees, Executes, NothingLeft, Skipped;
    var r := StageStep(cfg, w, stage, o);
    if r.ret != Raised && !o.skip {
      var w0 := StageOpening(w, stage, o);
      var l := Loop(cfg, w0, stage, o.proposals, []);
      LoopExecutes(cfg, w0, stage, o, r);
      LoopVerdict(cfg, w0, stage, o.proposals);
      AfterLoopAgrees(cfg, l.w, stage, l.artifacts, o);
      CurrentStageIgnored(cfg, w, w0, stage, o, r);
    }
  }

  lemma CurrentStageIgnored(cfg: Config, w: World, w0: World, stage: string, o: StageOracle, r: StageResult)
    requires w0.live == w.live.(currentStage := stage) && w0.traces == w.traces && w0.saved == w.saved
    requires Executes(cfg, w0, stage, o, r)
    ensures Executes(cfg, w, stage, o, r)
    ensures NothingLeft(cfg, w0.live, stage, o.proposals) <==> NothingLeft(cfg, w.live, stage, o.proposals)
  {
    AdmittedIgnoresStage(cfg, w.live, stage, |o.proposals|);
    TraceOfSame(w, w0, stage);
    hide Admitted, Raises, Steps, Artifacts, Flushed, KeysBelow, Accepted;
  }

  lemma AdmittedIgnoresStage(cfg: Config, live: Exec, stage: string, wanted: nat)
    ensures Admitted(cfg, live.(currentStage := stage), stage, wanted) == Admitted(cfg, live, stage, wanted)
  {
  }

  lemma TraceOfSame(w: World, v: World, stage: string)
    requires w.traces == v.traces && w.live.runId == v.live.runId
    ensures TraceOf(w, stage) == TraceOf(v, stage)
  {
  }

  // ----- Keys over whole runs -----

  /** The stage call gets as far as its loop, and that ends at an action which opened its node
      without being counted. */
  predicate CallLeavesUncounted(cfg: Config, live: Exec, stage: string, o: StageOracle) {
    o.opening.OpeningOk? && !o.skip && LeavesUncounted(cfg, live, stage, o.proposals)
  }

  /** A stage call keeps all keys older than the counter exactly when it leaves no uncounted
      action behind, whatever else raises in it. */
  lemma StageKeys(cfg: Config, w: World, stage: string, o: StageOracle)
    requires KeysBelow(w.live.dag, w.live.actionSeq)
    ensures var r := StageStep(cfg, w, stage, o).w.live;
      KeysBelow(r.dag, r.actionSeq) <==> !CallLeavesUncounted(cfg, w.live, stage, o)
  {
    hide Loop, AfterLoop, Skipped, KeysBelow, Agrees, Admitted, Counts, DeadEnd;
    var w0 := StageOpening(w, stage, o);
    AdmittedIgnoresStage(cfg, w.live, stage, |o.proposals|);
    SkippedAgrees(cfg, w0, stage, o);
    LoopKeys(cfg, w0, stage, o.proposals, []);
    var l := Loop(cfg, w0, stage, o.proposals, []);
    AfterLoopAgrees(cfg, l.w, stage, l.artifacts, o);
  }

  ghost predicate AlwaysCounted(cfg: Config, s: Session, calls: seq<Call>)
    decreases |calls|
  {
    calls == [] ||
    (!CallLeavesUncounted(cfg, s.w.live, calls[0].stage, calls[0].oracle)
     && AlwaysCounted(cfg, SessionStep(cfg, s, calls[0]), calls[1..]))
  }

  lemma {:induction false} RunKeys(cfg: Config, s: Session, calls: seq<Call>)
    requires KeysBelow(s.w.live.dag, s.w.live.actionSeq) && AlwaysCounted(cfg, s, calls)
    ensures var e := RunCalls(cfg, s, calls).w.live; KeysBelow(e.dag, e.actionSeq)
    decreases |calls|
  {
    hide StageStep, CallLeavesUncounted, KeysBelow;
    if calls != [] {
      StageKeys(cfg, s.w, calls[0].stage, calls[0].oracle);
      RunKeys(cfg, SessionStep(cfg, s, calls[0]), calls[1..]);
    }
  }

  /** In a run from a new executor, however much raised before, every normal return means what
      NormalReturn says, as long as no action opened its node without being counted. */
  lemma NormalReturnInRun(cfg: Config, run: string, calls: seq<Call>, c: Call)
    requires AlwaysCounted(cfg, FreshSession(run), calls)
    ensures ReturnsRight(cfg, RunCalls(cfg, FreshSession(run), calls).w, c.stage, c.oracle)
  {
    hide ReturnsRight, RunCalls;
    RunKeys(cfg, FreshSession(run), calls);
    NormalReturn(cfg, RunCalls(cfg, FreshSession(run), calls).w, c.stage, c.oracle);
  }
}
