/** What a stage call that returned normally leaves behind, and that it is still there at the end
    of the run. */
module RunOutcomes {
  import opened Options
  import opened RunTypes
  import opened StageSpec
  import opened ActionProperties
  import opened BranchAgreement
  import opened Freshness
  import opened StageOutcome
  import opened RunSessions
  import opened CleanStages

  // ----- One stage call -----

  /** Branches, nodes, decisions and artifact lineage between two worlds, for the actions that
      were executed in between. */
  ghost predicate Lineage(w: World, v: World, stage: string, did: seq<Action>) {
    && Beyond(Project(w.kernel, OpenedOf), Project(v.kernel, OpenedOf)) == Branches(stage, did)
    && Beyond(Project(w.kernel, EndedOf), Project(v.kernel, EndedOf)) == Branches(stage, did)
    && (DistinctBranches(did) ==> forall i :: 0 <= i < |did| ==> BranchAgrees(w, v, stage, did, i))
    && |w.events| + |did| <= |v.events|
    && forall i :: 0 <= i < |did| ==>
         v.events[|w.events| + i] == ActionDispatched(stage, did[i].branch, Artifacts(did[..i]))
  }

  lemma RunLineage(w: World, stage: string, did: seq<Action>)
    requires AllClean(did)
    ensures Lineage(w, RunAll(w, stage, did, []).w, stage, did)
  {
    hide RunAll, Project, Raises, BranchAgrees, Artifacts, Branches, Accepted, Bindings, Dispatches;
    var v := RunAll(w, stage, did, []).w;
    RunLogs(w, stage, did, []);
    RunCounters(w, stage, did, []);
    BeyondAppend(Project(w.kernel, OpenedOf), Branches(stage, did));
    BeyondAppend(Project(w.kernel, EndedOf), Branches(stage, did));
    if did == [] { NoDispatch(stage); } else { DispatchAt(stage, did, [], 0); }
    forall i | 0 <= i < |did|
      ensures v.events[|w.events| + i] == ActionDispatched(stage, did[i].branch, Artifacts(did[..i]))
    {
      DispatchAt(stage, did, [], i);
      assert [] + Artifacts(did[..i]) == Artifacts(did[..i]);
    }
    if DistinctBranches(did) {
      forall i | 0 <= i < |did|
        ensures BranchAgrees(w, v, stage, did, i)
      {
        BranchNodeDecision(w, stage, did, [], i);
      }
    }
  }

  lemma NoDispatch(stage: string)
    ensures Dispatches(stage, [], []) == []
  {
  }

  /** Stage events, the current stage, the summaries, further run events and traces play no
      part. */
  lemma LineageIgnoresStages(w: World, w0: World, v0: World, v: World, stage: string, did: seq<Action>)
    requires Lineage(w0, v0, stage, did)
    requires w.kernel <= w0.kernel && OnlyStages(w0.kernel[|w.kernel|..]) && OnlyCloses(v0, v)
    requires w0.live == w.live.(currentStage := stage) && w0.events == w.events && v0.events <= v.events
    ensures Lineage(w, v, stage, did)
  {
    hide Project, Artifacts, Branches, Accepted;
    SameProjection(w.kernel, w0.kernel, OpenedOf);
    SameProjection(w.kernel, w0.kernel, EndedOf);
    SameProjection(w.kernel, w0.kernel, SucceededOf);
    SameProjection(w.kernel, w0.kernel, BindingOf);
    SameProjection(v0.kernel, v.kernel, OpenedOf);
    SameProjection(v0.kernel, v.kernel, EndedOf);
    SameProjection(v0.kernel, v.kernel, SucceededOf);
    SameProjection(v0.kernel, v.kernel, BindingOf);
    forall i | 0 <= i < |did| && BranchAgrees(w0, v0, stage, did, i)
      ensures BranchAgrees(w, v, stage, did, i)
    {
      assert KeyAt(w.live, stage, did, i) == KeyAt(w0.live, stage, did, i);
    }
  }

  lemma SameProjection<T>(a: seq<KernelEvent>, b: seq<KernelEvent>, f: KernelEvent -> seq<T>)
    requires a <= b && OnlyStages(b[|a|..])
    requires forall e: KernelEvent :: e.StageOpened? || e.StageMarked? ==> f(e) == []
    ensures Project(a, f) == Project(b, f)
  {
    hide Project;
    assert b == a + b[|a|..];
    AppendNone(a, b[|a|..], f);
  }

  /** When the proposal loop ends normally, every branch it opened got exactly one terminal
      mark. With distinct branch ids a node is succeeded exactly when its branch is, and
      exactly when one task view was bound to one decision of the branch. Action i was handed
      the ordered artifacts of actions 0 to i-1, and the loop hands on all of them. */
  lemma LoopAgreement(cfg: Config, w: World, stage: string, ps: seq<Action>)
    ensures var l := Loop(cfg, w, stage, ps, []);
      var did := Prefix(cfg, w.live, stage, ps);
      !l.raised ==> Lineage(w, l.w, stage, did) && l.artifacts == Artifacts(did)
  {
    hide Loop, RunAll, Prefix, LeftOver, Artifacts, Project, Dispatches, Branches, BranchAgrees, Raises;
    var l := Loop(cfg, w, stage, ps, []);
    if !l.raised {
      var did := Prefix(cfg, w.live, stage, ps);
      CleanLoop(cfg, w, stage, ps, []);
      RunLineage(w, stage, did);
      var v := RunAll(w, stage, did, []).w;
      assert l.w == v.(events := l.w.events) && v.events <= l.w.events;
      assert [] + Artifacts(did) == Artifacts(did);
      MoreEvents(w, v, l.w, stage, did);
    }
  }

  lemma MoreEvents(w: World, v: World, u: World, stage: string, did: seq<Action>)
    requires Lineage(w, v, stage, did) && u == v.(events := u.events) && v.events <= u.events
    ensures Lineage(w, u, stage, did)
  {
    hide Project, Artifacts, Branches, Accepted, KeyAt;
    forall i | 0 <= i < |did| && BranchAgrees(w, v, stage, did, i)
      ensures BranchAgrees(w, u, stage, did, i)
    {
    }
  }

  /** The same for a whole stage call that returns normally and was not skipped; all artifacts
      reach its summary. */
  lemma StageAgreement(cfg: Config, w: World, stage: string, o: StageOracle)
    ensures var r := StageStep(cfg, w, stage, o);
      var did := Prefix(cfg, w.live, stage, o.proposals);
      r.ret != Raised && !o.skip ==>
        && Lineage(w, r.w, stage, did)
        && stage in r.w.live.summaries && r.w.live.summaries[stage].artifacts == Artifacts(did)
  {
    hide Loop, AfterLoop, Skipped, Lineage, Artifacts, Agrees, OnlyCloses, Admitted;
    var r := StageStep(cfg, w, stage, o);
    if r.ret != Raised && !o.skip {
      var w0 := StageOpening(w, stage, o);
      AdmittedIgnoresStage(cfg, w.live, stage, |o.proposals|);
      var did := Prefix(cfg, w.live, stage, o.proposals);
      var l := Loop(cfg, w0, stage, o.proposals, []);
      LoopAgreement(cfg, w0, stage, o.proposals);
      AfterLoopAgrees(cfg, l.w, stage, l.artifacts, o);
      InSummaries(cfg, l.w, stage, l.artifacts, o);
      AfterLoopEvents(cfg, l.w, stage, l.artifacts, o);
      AfterLoopKeepsEvents(cfg, l.w, stage, l.artifacts, o);
      LineageIgnoresStages(w, w0, l.w, r.w, stage, did);
    }
  }

  lemma ClosedKeepsEvents(cfg: Config, w: World, stage: string, mark: StageMark, s: Summary, fault: ClosingFault,
                          saves: bool, ret: Returned)
    ensures Closed(cfg, w, stage, mark, s, fault, saves, ret).w.events == w.events
  {
  }

  lemma AfterLoopKeepsEvents(cfg: Config, w: World, stage: string, arts: seq<string>, o: StageOracle)
    ensures AfterLoop(cfg, w, stage, arts, o).w.events == w.events
  {
    hide Closed, DeadEnd;
    var failed, done := Summary("failed", arts), Summary(o.compressedOutcome, arts);
    var v := Hooked(cfg, w, stage, arts, o).w;
    if o.postHook.Verdict? {
      ClosedKeepsEvents(cfg, w, stage, StageFailed, failed, o.postHook.fault, o.traceSaves, FailedStage);
    }
    ClosedKeepsEvents(cfg, v, stage, StageFailed, failed, o.closing, o.traceSaves, FailedStage);
    ClosedKeepsEvents(cfg, v, stage, StageCompleted, done, o.closing, o.traceSaves, Completed);
  }

  // ----- The summary -----

  lemma ClosedSummaries(cfg: Config, w: World, stage: string, mark: StageMark, s: Summary, fault: ClosingFault,
                        saves: bool, ret: Returned)
    ensures var r := Closed(cfg, w, stage, mark, s, fault, saves, ret).w;
      r.live.summaries == if fault.ClosingOk? || fault.AfterSummary? then w.live.summaries[stage := s]
                          else w.live.summaries
  {
  }

  /** What a stage call that ends in the given way leaves as the stage's summary: "failed" on
      both failed exits, what the compressor found on completion, and all artifacts of the
      executed actions, in order. */
  function ClosingSummary(o: StageOracle, did: seq<Action>, ret: Returned): Summary {
    if ret == FailedStage then Summary("failed", Artifacts(did))
    else if o.skip then Summary("skipped_by_budget", [])
    else Summary(o.compressedOutcome, Artifacts(did))
  }

  lemma AfterLoopSummary(cfg: Config, w: World, stage: string, arts: seq<string>, o: StageOracle)
    ensures var r := AfterLoop(cfg, w, stage, arts, o);
      && (r.ret == FailedStage ==> r.w.live.summaries == w.live.summaries[stage := Summary("failed", arts)])
      && (r.ret == Completed ==>
            r.w.live.summaries == w.live.summaries[stage := Summary(o.compressedOutcome, arts)])
      && (r.ret == Raised ==>
            || r.w.live.summaries == w.live.summaries
            || r.w.live.summaries == w.live.summaries[stage := Summary("failed", arts)]
            || r.w.live.summaries == w.live.summaries[stage := Summary(o.compressedOutcome, arts)])
  {
    hide Closed, DeadEnd;
    var failed, done := Summary("failed", arts), Summary(o.compressedOutcome, arts);
    var v := Hooked(cfg, w, stage, arts, o).w;
    if o.postHook.Verdict? {
      ClosedSummaries(cfg, w, stage, StageFailed, failed, o.postHook.fault, o.traceSaves, FailedStage);
      ClosedAgrees(cfg, w, stage, StageFailed, failed, o.postHook.fault, o.traceSaves, FailedStage);
    }
    ClosedSummaries(cfg, v, stage, StageFailed, failed, o.closing, o.traceSaves, FailedStage);
    ClosedSummaries(cfg, v, stage, StageCompleted, done, o.closing, o.traceSaves, Completed);
    ClosedAgrees(cfg, v, stage, StageFailed, failed, o.closing, o.traceSaves, FailedStage);
    ClosedAgrees(cfg, v, stage, StageCompleted, done, o.closing, o.traceSaves, Completed);
    assert w.live.summaries[stage := failed][stage := done] == w.live.summaries[stage := done];
    assert w.live.summaries[stage := failed][stage := failed] == w.live.summaries[stage := failed];
  }

  /** Every normal return writes exactly one summary, the one its exit calls for, and no other
      stage's summary changes. */
  lemma StageSummaryExact(cfg: Config, w: World, stage: string, o: StageOracle)
    ensures var r := StageStep(cfg, w, stage, o);
      var did := Prefix(cfg, w.live, stage, o.proposals);
      && (r.ret != Raised ==>
            r.w.live.summaries == w.live.summaries[stage := ClosingSummary(o, did, r.ret)])
      && r.w.live.currentStage == stage
  {
    hide Loop, AfterLoop, Lineage, Artifacts, Admitted, TracePersisted;
    var r := StageStep(cfg, w, stage, o);
    var w0 := StageOpening(w, stage, o);
    LoopGrows(cfg, w0, stage, o.proposals, []);
    var l := Loop(cfg, w0, stage, o.proposals, []);
    AfterLoopAgrees(cfg, l.w, stage, l.artifacts, o);
    SkippedSummary(cfg, w0, stage, o);
    AdmittedIgnoresStage(cfg, w.live, stage, |o.proposals|);
    LoopAgreement(cfg, w0, stage, o.proposals);
    AfterLoopSummary(cfg, l.w, stage, l.artifacts, o);
    hide Skipped;
  }

  /** The skip: its event, its mark, and the summary and the trace when it can return. */
  lemma SkippedSummary(cfg: Config, w: World, stage: string, o: StageOracle)
    ensures var r := Skipped(cfg, w, stage, o);
      && r.w.events == w.events + [StageSkippedByBudget(stage)]
      && r.w.kernel == w.kernel + (if o.closing.AtStageMark? then [] else [StageMarked(stage, StageCompleted)])
      && r.ret != FailedStage
      && (r.ret == Completed ==>
            && r.w.live == w.live.(summaries := w.live.summaries[stage := Summary("skipped_by_budget", [])])
            && r.w.saved == w.saved + Flushed(cfg, stage, TraceOf(w, stage), o.traceSaves))
      && (r.ret == Raised ==> r.w.live == w.live && r.w.saved == w.saved && r.w.traces == w.traces)
  {
  }

  // ----- The stage's own events -----

  function StageEventOf(e: KernelEvent): seq<KernelEvent> { if e.StageOpened? || e.StageMarked? then [e] else [] }

  /** The final mark, if the closing block gets as far as telling it. */
  function FinalMark(stage: string, mark: StageMark, fault: ClosingFault): seq<KernelEvent> {
    if fault.AtStageMark? then [] else [StageMarked(stage, mark)]
  }

  /** What the kernel is told about the stage behind its loop: FAILED for a verdict, and unless
      its handling went through, FAILED or COMPLETED once more. */
  function ClosingTold(stage: string, o: StageOracle, deadEnd: bool): seq<KernelEvent> {
    var last := FinalMark(stage, if deadEnd then StageFailed else StageCompleted, o.closing);
    match o.postHook
    case NoVerdict => last
    case Verdict(fault) => FinalMark(stage, StageFailed, fault) + if fault.ClosingOk? then [] else last
  }

  lemma ClosedTold(cfg: Config, w: World, stage: string, mark: StageMark, s: Summary, fault: ClosingFault,
                   saves: bool, ret: Returned)
    ensures var r := Closed(cfg, w, stage, mark, s, fault, saves, ret);
      && r.w.kernel == w.kernel + FinalMark(stage, mark, fault) && r.w.live.dag == w.live.dag
      && (r.ret == Raised ==> !fault.ClosingOk? || ret == Raised) && (fault.ClosingOk? ==> r.ret == ret)
  {
  }

  lemma AfterLoopTold(cfg: Config, w: World, stage: string, arts: seq<string>, o: StageOracle)
    ensures AfterLoop(cfg, w, stage, arts, o).w.kernel
         == w.kernel + ClosingTold(stage, o, DeadEnd(w.live.dag, stage))
  {
    hide DeadEnd, Closed, FinalMark;
    var failed, done := Summary("failed", arts), Summary(o.compressedOutcome, arts);
    var v := Hooked(cfg, w, stage, arts, o).w;
    if o.postHook.Verdict? {
      ClosedTold(cfg, w, stage, StageFailed, failed, o.postHook.fault, o.traceSaves, FailedStage);
      ClosedAgrees(cfg, w, stage, StageFailed, failed, o.postHook.fault, o.traceSaves, FailedStage);
    }
    ClosedTold(cfg, v, stage, StageFailed, failed, o.closing, o.traceSaves, FailedStage);
    ClosedTold(cfg, v, stage, StageCompleted, done, o.closing, o.traceSaves, Completed);
  }

  /** What the kernel is told while the stage opens. */
  function OpeningTold(stage: string, fault: OpeningFault): seq<KernelEvent> {
    match fault
    case AtOpenStage => []
    case AtMarkStageActive => [StageOpened(stage)]
    case _ => [StageOpened(stage), StageMarked(stage, StageActive)]
  }

  /** Whether the call gets as far as its proposals and through them. */
  ghost predicate ReachesEnd(cfg: Config, w: World, stage: string, o: StageOracle) {
    o.opening.OpeningOk? && !o.skip && !Loop(cfg, StageOpening(w, stage, o), stage, o.proposals, []).raised
  }

  /** Every stage call, raising or not: what the kernel hears of the stage. A raise while it
      opens cuts the opening short, a raise in front of or in the loop leaves it ACTIVE. */
  lemma StageToldAlways(cfg: Config, w: World, stage: string, o: StageOracle)
    ensures var l := Loop(cfg, StageOpening(w, stage, o), stage, o.proposals, []);
      Project(StageStep(cfg, w, stage, o).w.kernel, StageEventOf)
        == Project(w.kernel, StageEventOf) + OpeningTold(stage, o.opening)
           + if o.opening.AtOpenStage? || o.opening.AtMarkStageActive? then []
             else if o.skip then FinalMark(stage, StageCompleted, o.closing)
             else if ReachesEnd(cfg, w, stage, o) then ClosingTold(stage, o, DeadEnd(l.w.live.dag, stage))
             else []
  {
    hide Loop, AfterLoop, DeadEnd, Project, Skipped, Agrees, FinalMark;
    var w0 := StageOpening(w, stage, o);
    var opening := OpeningTold(stage, o.opening);
    assert w0.kernel == w.kernel + opening;
    ProjectAppend(w.kernel, opening, StageEventOf);
    StageEventsThemselves(opening);
    if o.skip {
      SkippedSummary(cfg, w0, stage, o);
      FinalMarkTold(w0.kernel, stage, StageCompleted, o.closing);
    } else {
      var l := Loop(cfg, w0, stage, o.proposals, []);
      LoopTellsNoStage(cfg, w0, stage, o.proposals, []);
      AfterLoopTold(cfg, l.w, stage, l.artifacts, o);
      var told := ClosingTold(stage, o, DeadEnd(l.w.live.dag, stage));
      ProjectAppend(l.w.kernel, told, StageEventOf);
      ClosingTellsStages(stage, o, DeadEnd(l.w.live.dag, stage));
      StageEventsThemselves(told);
    }
  }

  lemma FinalMarkTold(log: seq<KernelEvent>, stage: string, mark: StageMark, fault: ClosingFault)
    ensures var last := if fault.AtStageMark? then [] else [StageMarked(stage, mark)];
      Project(log + last, StageEventOf) == Project(log, StageEventOf) + FinalMark(stage, mark, fault)
  {
    hide Project;
    var last := FinalMark(stage, mark, fault);
    ProjectAppend(log, last, StageEventOf);
    StageEventsThemselves(last);
  }

  lemma ClosingTellsStages(stage: string, o: StageOracle, deadEnd: bool)
    ensures OnlyStages(ClosingTold(stage, o, deadEnd))
  {
  }

  /** Over a stage call that does not raise, the kernel hears of the stage exactly: opened,
      ACTIVE, FAILED once for a verdict whose handling was swallowed behind its mark, and the
      final mark, which is FAILED exactly on a failed return. */
  lemma StageToldExact(cfg: Config, w: World, stage: string, o: StageOracle)
    ensures var r := StageStep(cfg, w, stage, o);
      var swallowed := !o.skip && o.postHook.Verdict? && !o.postHook.fault.ClosingOk? && !o.postHook.fault.AtStageMark?;
      r.ret != Raised ==>
        Project(r.w.kernel, StageEventOf)
          == Project(w.kernel, StageEventOf)
             + ([StageOpened(stage), StageMarked(stage, StageActive)]
                + (if swallowed then [StageMarked(stage, StageFailed)] else [])
                + [StageMarked(stage, if r.ret == FailedStage then StageFailed else StageCompleted)])
  {
    hide Loop, AfterLoop, DeadEnd, Project, Skipped, Agrees;
    StageToldAlways(cfg, w, stage, o);
    var w0 := StageOpening(w, stage, o);
    var l := Loop(cfg, w0, stage, o.proposals, []);
    ReturnedSkip(cfg, w0, stage, o);
    SkippedSummary(cfg, w0, stage, o);
    AfterLoopAgrees(cfg, l.w, stage, l.artifacts, o);
    AfterLoopRaises(cfg, l.w, stage, l.artifacts, o);
  }

  lemma ReturnedSkip(cfg: Config, w: World, stage: string, o: StageOracle)
    ensures Skipped(cfg, w, stage, o).ret == Completed <==> !o.closing.AtStageMark? && cfg.skipSummaryBuilds
  {
  }

  /** The part behind the loop raises exactly when no verdict went through and its last closing
      block does. */
  lemma AfterLoopRaises(cfg: Config, w: World, stage: string, arts: seq<string>, o: StageOracle)
    ensures AfterLoop(cfg, w, stage, arts, o).ret == Raised
       <==> o.postHook != Verdict(ClosingOk) && !o.closing.ClosingOk?
  {
    hide DeadEnd, TracePersisted, Summarised;
  }

  lemma {:induction false} StageEventsThemselves(events: seq<KernelEvent>)
    requires OnlyStages(events)
    ensures Project(events, StageEventOf) == events
  {
    if events != [] {
      StageEventsThemselves(events[..|events| - 1]);
      assert events == events[..|events| - 1] + [events[|events| - 1]];
    }
  }

  lemma ActionTellsNoStage(w: World, stage: string, a: Action, arts: seq<string>)
    ensures Project(Executed(w, stage, a, arts).w.kernel, StageEventOf) == Project(w.kernel, StageEventOf)
  {
    hide Executed, Raises, NodeAfter, Project, ActionLog;
    ActionEffect(w, stage, a, arts);
    ActionLogProjects(w, stage, a, Executed(w, stage, a, arts).w.kernel, StageEventOf);
    OwnTellNoStage(w.live.runId, stage, a, w.live.decisionSeq);
  }

  lemma OwnTellNoStage(run: string, stage: string, a: Action, n: nat)
    ensures Project(OpenLog(stage, a), StageEventOf) == [] && Project(BodyLog(run, stage, a, n), StageEventOf) == []
  {
    OwnEventsMarkNoStage(run, stage, a, n);
    OwnEventsOpenNoStage(run, stage, a, n);
    hide OpenLog, BodyLog, Project;
    ProjectNone(OpenLog(stage, a), StageEventOf);
    ProjectNone(BodyLog(run, stage, a, n), StageEventOf);
  }

  lemma OwnEventsOpenNoStage(run: string, stage: string, a: Action, n: nat)
    ensures forall i :: 0 <= i < |OpenLog(stage, a)| ==> !OpenLog(stage, a)[i].StageOpened?
    ensures forall i :: 0 <= i < |BodyLog(run, stage, a, n)| ==> !BodyLog(run, stage, a, n)[i].StageOpened?
  {
  }

  lemma {:induction false} LoopTellsNoStage(cfg: Config, w: World, stage: string, ps: seq<Action>, arts: seq<string>)
    ensures Project(Loop(cfg, w, stage, ps, arts).w.kernel, StageEventOf) == Project(w.kernel, StageEventOf)
    decreases |ps|
  {
    hide Executed, Project;
    if ps != [] && CheckBudget(cfg, w.live, stage).None? {
      var r := Executed(w, stage, ps[0], arts);
      ActionTellsNoStage(w, stage, ps[0], arts);
      if !r.raised { LoopTellsNoStage(cfg, r.w, stage, ps[1..], r.artifacts); }
    }
  }

  // ----- Whole runs -----

  /** How a call ended, with the summary that its exit calls for. */
  datatype Exit = Exit(ret: Returned, summary: Summary)

  /** Kernel mark, summary and returned value agree, the summary is the one the exit calls for,
      and no reasoning trace is left. */
  ghost predicate Settled(w: World, stage: string, exit: Exit) {
    && exit.ret != Raised && Agrees(StageResult(w, exit.ret, true), stage)
    && stage in w.live.summaries && w.live.summaries[stage] == exit.summary
  }

  /** Mark, summary and trace of a stage are the same in both worlds. */
  ghost predicate Untouched(w: World, v: World, t: string) {
    && LastMark(v.kernel, t) == LastMark(w.kernel, t)
    && v.live.runId == w.live.runId
    && (t in v.live.summaries <==> t in w.live.summaries)
    && (t in v.live.summaries ==> v.live.summaries[t] == w.live.summaries[t])
    && ((w.live.runId, t) in v.traces <==> (w.live.runId, t) in w.traces)
  }

  lemma UntouchedOn(w: World, v: World, u: World, t: string)
    requires Untouched(w, v, t) && Untouched(v, u, t)
    ensures Untouched(w, u, t)
  {
  }

  lemma ActionTracesElsewhere(w: World, stage: string, a: Action, arts: seq<string>, t: string)
    requires t != stage
    ensures (w.live.runId, t) in Executed(w, stage, a, arts).w.traces <==> (w.live.runId, t) in w.traces
  {
    hide Tried, Finished;
    var w0 := Opened(w, stage, a);
    OpenedTrace(w, stage, a);
    TriedTrace(w0, stage, a, arts);
    FinishedFrame(Tried(w0, stage, a, arts).w, a);
  }

  lemma {:induction false} LoopTracesElsewhere(cfg: Config, w: World, stage: string, ps: seq<Action>,
                                               arts: seq<string>, t: string)
    requires t != stage
    ensures (w.live.runId, t) in Loop(cfg, w, stage, ps, arts).w.traces <==> (w.live.runId, t) in w.traces
    decreases |ps|
  {
    hide Executed;
    if ps != [] && CheckBudget(cfg, w.live, stage).None? {
      var r := Executed(w, stage, ps[0], arts);
      ActionTracesElsewhere(w, stage, ps[0], arts, t);
      ActionGrows(w, stage, ps[0], arts);
      if !r.raised { LoopTracesElsewhere(cfg, r.w, stage, ps[1..], r.artifacts, t); }
    }
  }

  lemma LoopElsewhere(cfg: Config, w: World, stage: string, ps: seq<Action>, t: string)
    requires t != stage
    ensures Untouched(w, Loop(cfg, w, stage, ps, []).w, t)
  {
    hide Loop, LastMark;
    LoopMarksNoStage(cfg, w, stage, ps, [], t);
    LoopGrows(cfg, w, stage, ps, []);
    LoopTracesElsewhere(cfg, w, stage, ps, [], t);
  }

  lemma OtherMark(log: seq<KernelEvent>, e: KernelEvent, t: string)
    requires e.StageMarked? ==> e.stage != t
    ensures LastMark(log + [e], t) == LastMark(log, t)
  {
    assert (log + [e])[..|log|] == log;
  }

  lemma ClosedElsewhere(cfg: Config, w: World, stage: string, mark: StageMark, s: Summary, fault: ClosingFault,
                        saves: bool, ret: Returned, t: string)
    requires t != stage
    ensures Untouched(w, Closed(cfg, w, stage, mark, s, fault, saves, ret).w, t)
  {
    hide LastMark;
    OtherMark(w.kernel, StageMarked(stage, mark), t);
  }

  lemma AfterLoopElsewhere(cfg: Config, w: World, stage: string, arts: seq<string>, o: StageOracle, t: string)
    requires t != stage
    ensures Untouched(w, AfterLoop(cfg, w, stage, arts, o).w, t)
  {
    hide Closed, DeadEnd, Untouched;
    var failed, done := Summary("failed", arts), Summary(o.compressedOutcome, arts);
    var v := Hooked(cfg, w, stage, arts, o).w;
    if o.postHook.Verdict? {
      ClosedElsewhere(cfg, w, stage, StageFailed, failed, o.postHook.fault, o.traceSaves, FailedStage, t);
    } else {
      NothingTouched(w, t);
    }
    ClosedElsewhere(cfg, v, stage, StageFailed, failed, o.closing, o.traceSaves, FailedStage, t);
    ClosedElsewhere(cfg, v, stage, StageCompleted, done, o.closing, o.traceSaves, Completed, t);
    UntouchedOn(w, v, Ended(cfg, v, stage, arts, o).w, t);
  }

  lemma NothingTouched(w: World, t: string)
    ensures Untouched(w, w, t)
  {
  }

  lemma SkippedElsewhere(cfg: Config, w: World, stage: string, o: StageOracle, t: string)
    requires t != stage
    ensures Untouched(w, Skipped(cfg, w, stage, o).w, t)
  {
    hide LastMark;
    OtherMark(w.kernel, StageMarked(stage, StageCompleted), t);
  }

  lemma OpeningElsewhere(w: World, stage: string, o: StageOracle, t: string)
    requires t != stage
    ensures Untouched(w, StageOpening(w, stage, o), t)
  {
    hide LastMark;
    var e0, e1 := StageOpened(stage), StageMarked(stage, StageActive);
    OtherMark(w.kernel, e0, t);
    OtherMark(w.kernel + [e0], e1, t);
    assert w.kernel + [e0, e1] == w.kernel + [e0] + [e1];
  }

  /** A stage call, whatever raises in it, leaves mark, summary and trace of every other stage
      alone. */
  lemma StageElsewhere(cfg: Config, w: World, stage: string, o: StageOracle, t: string)
    requires t != stage
    ensures Untouched(w, StageStep(cfg, w, stage, o).w, t)
  {
    hide Loop, AfterLoop, Skipped, Untouched, StageOpening;
    var w0 := StageOpening(w, stage, o);
    OpeningElsewhere(w, stage, o, t);
    SkippedElsewhere(cfg, w0, stage, o, t);
    var l := Loop(cfg, w0, stage, o.proposals, []);
    LoopElsewhere(cfg, w0, stage, o.proposals, t);
    AfterLoopElsewhere(cfg, l.w, stage, l.artifacts, o, t);
    UntouchedOn(w, w0, Skipped(cfg, w0, stage, o).w, t);
    UntouchedOn(w, w0, l.w, t);
    UntouchedOn(w, l.w, AfterLoop(cfg, l.w, stage, l.artifacts, o).w, t);
  }

  /** How a call made in the given session ends. */
  ghost function ExitOf(cfg: Config, s: Session, c: Call): Exit {
    var ret := StageStep(cfg, s.w, c.stage, c.oracle).ret;
    Exit(ret, ClosingSummary(c.oracle, Prefix(cfg, s.w.live, c.stage, c.oracle.proposals), ret))
  }

  /** How the last call for the stage ended, `before` when there is none. */
  ghost function LastExit(cfg: Config, s: Session, calls: seq<Call>, t: string, before: Option<Exit>): Option<Exit>
    decreases |calls|
  {
    if calls == [] then before
    else
      var exit := ExitOf(cfg, s, calls[0]);
      LastExit(cfg, SessionStep(cfg, s, calls[0]), calls[1..], t, if calls[0].stage == t then Some(exit) else before)
  }

  lemma CallSettles(cfg: Config, s: Session, c: Call)
    ensures var exit := ExitOf(cfg, s, c); exit.ret != Raised ==> Settled(SessionStep(cfg, s, c).w, c.stage, exit)
  {
    hide StageStep, LastMark, ClosingSummary, Prefix;
    FinalStateAgreement(cfg, s.w, c.stage, c.oracle);
    StageSummaryExact(cfg, s.w, c.stage, c.oracle);
  }

  lemma StepKeepsSettled(cfg: Config, s: Session, c: Call, t: string, exit: Exit)
    requires c.stage != t && Settled(s.w, t, exit)
    ensures Settled(SessionStep(cfg, s, c).w, t, exit)
  {
    hide StageStep, LastMark;
    StageElsewhere(cfg, s.w, c.stage, c.oracle, t);
  }

  lemma {:induction false} StaysSettled(cfg: Config, s: Session, calls: seq<Call>, t: string, before: Option<Exit>)
    requires before.Some? && before.value.ret != Raised ==> Settled(s.w, t, before.value)
    ensures var exit := LastExit(cfg, s, calls, t, before);
      exit.Some? && exit.value.ret != Raised ==> Settled(RunCalls(cfg, s, calls).w, t, exit.value)
    decreases |calls|
  {
    hide SessionStep, Settled, ExitOf;
    if calls != [] {
      var c := calls[0];
      CallSettles(cfg, s, c);
      if c.stage != t && before.Some? && before.value.ret != Raised { StepKeepsSettled(cfg, s, c, t, before.value); }
      StaysSettled(cfg, SessionStep(cfg, s, c), calls[1..], t,
                   if c.stage == t then Some(ExitOf(cfg, s, c)) else before);
    }
  }

  /** Over every schedule of stage calls, retries and raises: at the end of the run each stage
      whose last call returned normally still has the summary that this call's exit called
      for, a kernel mark and a summary that agree with what it returned, and no reasoning
      trace left. */
  lemma RunAgreement(cfg: Config, s: Session, calls: seq<Call>, t: string)
    ensures var exit := LastExit(cfg, s, calls, t, None);
      exit.Some? && exit.value.ret != Raised ==> Settled(RunCalls(cfg, s, calls).w, t, exit.value)
  {
    StaysSettled(cfg, s, calls, t, None);
  }

  /** A stage that no call names keeps its summary. */
  lemma {:induction false} UncalledKept(cfg: Config, s: Session, calls: seq<Call>, t: string)
    requires forall i :: 0 <= i < |calls| ==> calls[i].stage != t
    ensures Untouched(s.w, RunCalls(cfg, s, calls).w, t)
    decreases |calls|
  {
    hide StageStep, Untouched;
    if calls == [] {
      NothingTouched(s.w, t);
    } else {
      var next := SessionStep(cfg, s, calls[0]);
      StageElsewhere(cfg, s.w, calls[0].stage, calls[0].oracle, t);
      UncalledKept(cfg, next, calls[1..], t);
      UntouchedOn(s.w, next.w, RunCalls(cfg, next, calls[1..]).w, t);
    }
  }
}
