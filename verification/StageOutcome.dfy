/** What a whole stage call guarantees on its exits. */
module StageOutcome {
  import opened Options
  import opened RunTypes
  import opened StageSpec
  import opened ActionProperties

  // ----- Frames -----

  /** What no action and no loop touches, and what only grows. */
  ghost predicate Grows(w: World, v: World) {
    && v.live.runId == w.live.runId && v.live.currentStage == w.live.currentStage
    && v.live.branchSeq == w.live.branchSeq && v.live.summaries == w.live.summaries && v.saved == w.saved
    && w.live.actionSeq <= v.live.actionSeq && w.live.decisionSeq <= v.live.decisionSeq
    && w.live.gateSeq <= v.live.gateSeq && w.live.totalBranches <= v.live.totalBranches
    && w.kernel <= v.kernel
  }

  lemma ActionGrows(w: World, stage: string, a: Action, arts: seq<string>)
    ensures Grows(w, Executed(w, stage, a, arts).w)
  {
    hide Executed, OnlyGates;
    ActionEffect(w, stage, a, arts);
  }

  lemma {:induction false} LoopGrows(cfg: Config, w: World, stage: string, ps: seq<Action>, arts: seq<string>)
    ensures Grows(w, Loop(cfg, w, stage, ps, arts).w)
    decreases |ps|
  {
    hide Executed;
    if ps != [] && CheckBudget(cfg, w.live, stage).None? {
      var r := Executed(w, stage, ps[0], arts);
      ActionGrows(w, stage, ps[0], arts);
      if !r.raised { LoopGrows(cfg, r.w, stage, ps[1..], r.artifacts); }
    }
  }

  /** No action marks a stage. */
  lemma {:induction false} LoopMarksNoStage(cfg: Config, w: World, stage: string, ps: seq<Action>,
                                            arts: seq<string>, s: string)
    ensures LastMark(Loop(cfg, w, stage, ps, arts).w.kernel, s) == LastMark(w.kernel, s)
    decreases |ps|
  {
    hide Executed;
    if ps != [] && CheckBudget(cfg, w.live, stage).None? {
      var r := Executed(w, stage, ps[0], arts);
      ActionEffect(w, stage, ps[0], arts);
      ActionMarksNoStage(w, stage, ps[0], r.w.kernel, s);
      if !r.raised { LoopMarksNoStage(cfg, r.w, stage, ps[1..], r.artifacts, s); }
    }
  }

  lemma ActionMarksNoStage(w: World, stage: string, a: Action, log: seq<KernelEvent>, s: string)
    requires ActionLog(w, stage, a, log)
    ensures LastMark(log, s) == LastMark(w.kernel, s)
  {
    var body := if a.openFault.OpenOk? then BodyLog(w.live.runId, stage, a, w.live.decisionSeq) else [];
    var own := w.kernel + OpenLog(stage, a) + body;
    assert log == own + log[|own|..];
    assert forall i :: 0 <= i < |log| - |own| ==> log[|own|..][i].GateOpened?;
    OwnEventsMarkNoStage(w.live.runId, stage, a, w.live.decisionSeq);
    hide OpenLog, BodyLog, LastMark;
    NoMark(own, log[|own|..], s);
    NoMark(w.kernel + OpenLog(stage, a), body, s);
    NoMark(w.kernel, OpenLog(stage, a), s);
  }

  lemma OwnEventsMarkNoStage(run: string, stage: string, a: Action, n: nat)
    ensures forall i :: 0 <= i < |OpenLog(stage, a)| ==> !OpenLog(stage, a)[i].StageMarked?
    ensures forall i :: 0 <= i < |BodyLog(run, stage, a, n)| ==> !BodyLog(run, stage, a, n)[i].StageMarked?
  {
  }

  /** The last mark of a stage in the kernel log. */
  function LastMark(log: seq<KernelEvent>, stage: string): Option<StageMark> {
    if log == [] then None
    else
      var e := log[|log| - 1];
      if e.StageMarked? && e.stage == stage then Some(e.mark) else LastMark(log[..|log| - 1], stage)
  }

  lemma {:induction false} NoMark(a: seq<KernelEvent>, b: seq<KernelEvent>, s: string)
    requires forall i :: 0 <= i < |b| ==> !b[i].StageMarked?
    ensures LastMark(a + b, s) == LastMark(a, s)
  {
    if b == [] {
      assert a + b == a;
    } else {
      assert (a + b)[..|a + b| - 1] == a + b[..|b| - 1];
      NoMark(a, b[..|b| - 1], s);
    }
  }

  // ----- Final-state agreement -----

  /** What a caller may rely on after a normal return: kernel mark, summary and returned
      value agree, and no reasoning trace is left behind. */
  ghost predicate Agrees(r: StageResult, stage: string) {
    r.ret != Raised ==>
      && stage in r.w.live.summaries
      && (r.w.live.runId, stage) !in r.w.traces
      && (r.ret == FailedStage <==>
            LastMark(r.w.kernel, stage) == Some(StageFailed) && r.w.live.summaries[stage].outcome == "failed")
      && (r.ret == Completed <==> LastMark(r.w.kernel, stage) == Some(StageCompleted))
  }

  lemma ClosedAgrees(cfg: Config, w: World, stage: string, mark: StageMark, s: Summary, fault: ClosingFault,
                     saves: bool, ret: Returned)
    requires (ret == FailedStage && mark == StageFailed && s.outcome == "failed")
          || (ret == Completed && mark == StageCompleted)
    ensures var r := Closed(cfg, w, stage, mark, s, fault, saves, ret);
      && Agrees(r, stage)
      && r.synced == (r.ret != Raised) == fault.ClosingOk?
      && (r.ret == Raised || r.ret == ret)
      && r.w.live == w.live.(summaries := r.w.live.summaries)
      && (r.synced ==> r.w.live.summaries == w.live.summaries[stage := s])
  {
    var log := w.kernel + [StageMarked(stage, mark)];
    assert LastMark(log, stage) == Some(mark);
  }

  /** On every normal return "failed" means that the last mark is FAILED and the summary says
      so, None means that the last mark is COMPLETED, and no trace is left; this holds for any
      fault, also when handling a middleware verdict raised after its FAILED mark and was
      swallowed. */
  lemma AfterLoopAgrees(cfg: Config, w: World, stage: string, arts: seq<string>, o: StageOracle)
    ensures var r := AfterLoop(cfg, w, stage, arts, o);
      && Agrees(r, stage)
      && r.synced == (r.ret != Raised)
      && r.w.live == w.live.(summaries := r.w.live.summaries)
      && (r.synced ==> r.w.live.summaries[stage].artifacts == arts)
      && (r.ret == FailedStage ==> o.postHook == Verdict(ClosingOk) || DeadEnd(w.live.dag, stage))
      && (r.ret == Completed ==> o.postHook != Verdict(ClosingOk) && !DeadEnd(w.live.dag, stage))
  {
    hide Agrees, Closed, DeadEnd;
    var failed := Summary("failed", arts);
    var w1 := w;
    if o.postHook.Verdict? {
      ClosedAgrees(cfg, w, stage, StageFailed, failed, o.postHook.fault, o.traceSaves, FailedStage);
      w1 := Closed(cfg, w, stage, StageFailed, failed, o.postHook.fault, o.traceSaves, FailedStage).w;
    }
    ClosedAgrees(cfg, w1, stage, StageFailed, failed, o.closing, o.traceSaves, FailedStage);
    var done := Summary(o.compressedOutcome, arts);
    ClosedAgrees(cfg, w1, stage, StageCompleted, done, o.closing, o.traceSaves, Completed);
  }

  lemma SkippedAgrees(cfg: Config, w: World, stage: string, o: StageOracle)
    ensures var r := Skipped(cfg, w, stage, o);
      && Agrees(r, stage) && !r.synced
      && (r.ret == Raised || r.ret == Completed)
      && (!cfg.skipSummaryBuilds ==> r.ret == Raised)
      && (r.ret == Completed ==> r.w.live.summaries[stage] == Summary("skipped_by_budget", []))
      && r.w.live == w.live.(summaries := r.w.live.summaries)
  {
    var log := w.kernel + [StageMarked(stage, StageCompleted)];
    assert LastMark(log, stage) == Some(StageCompleted);
    assert "skipped_by_budget"[0] != "failed"[0];
  }

  /** The budget skip of the shipped program, once it got past its COMPLETED mark: it raises,
      so the stage is completed for the kernel while the executor has no new summary, nothing
      was synced, and the stage's reasoning trace stays in the side channel. */
  lemma ShippedSkip(cfg: Config, w: World, stage: string, o: StageOracle)
    requires Shipped(cfg) && o.skip && !o.closing.AtStageMark?
    requires !o.opening.AtOpenStage? && !o.opening.AtMarkStageActive?
    ensures var r := StageStep(cfg, w, stage, o);
      && r.ret == Raised && !r.synced
      && LastMark(r.w.kernel, stage) == Some(StageCompleted)
      && r.w.live == w.live.(currentStage := stage)
      && r.w.traces == w.traces && r.w.saved == w.saved
  {
    hide Loop, AfterLoop;
    SkipSummaryNeverBuilds();
    var log := StageOpening(w, stage, o).kernel + [StageMarked(stage, StageCompleted)];
    assert LastMark(log, stage) == Some(StageCompleted);
  }

  lemma FinalStateAgreement(cfg: Config, w: World, stage: string, o: StageOracle)
    ensures Agrees(StageStep(cfg, w, stage, o), stage)
    ensures var r := StageStep(cfg, w, stage, o); r.synced <==> r.ret != Raised && !o.skip
    ensures o.skip && !cfg.skipSummaryBuilds ==> StageStep(cfg, w, stage, o).ret == Raised
  {
    hide Loop, AfterLoop, Skipped, LastMark;
    var w0 := StageOpening(w, stage, o);
    SkippedAgrees(cfg, w0, stage, o);
    var l := Loop(cfg, w0, stage, o.proposals, []);
    AfterLoopAgrees(cfg, l.w, stage, l.artifacts, o);
  }
}
