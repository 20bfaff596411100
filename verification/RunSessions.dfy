/** Sequences of stage calls on one executor: budget safety, conservation of branch counts and
    freshness of references over every schedule, retries and raised calls included. */
module RunSessions {
  import opened Options
  import opened RunTypes
  import opened StageSpec
  import opened ActionProperties
  import opened BranchAgreement
  import opened Freshness

  /** An executor with the context it was built from; `shared` says that both still use the
      same dictionaries. */
  datatype Session = Session(w: World, ctx: Option<Exec>, shared: bool)

  datatype Call = Call(stage: string, oracle: StageOracle)

  function SessionStep(cfg: Config, s: Session, c: Call): Session {
    var r := StageStep(cfg, s.w, c.stage, c.oracle);
    Session(r.w, ContextAfter(s.ctx, s.shared, r.w.live, r.synced), s.shared && !r.synced)
  }

  function RunCalls(cfg: Config, s: Session, calls: seq<Call>): Session
    decreases |calls|
  {
    if calls == [] then s else RunCalls(cfg, SessionStep(cfg, s, calls[0]), calls[1..])
  }

  // ----- Sums over the per-stage counts -----

  ghost function Sum(m: map<string, nat>): nat {
    if m == map[] then 0
    else
      var k :| k in m;
      m[k] + Sum(m - {k})
  }

  lemma {:induction false} SumSplit(m: map<string, nat>, k: string)
    requires k in m
    ensures Sum(m) == m[k] + Sum(m - {k})
  {
    var j :| j in m && Sum(m) == m[j] + Sum(m - {j});
    if j != k {
      SumSplit(m - {j}, k);
      SumSplit(m - {k}, j);
      assert m - {j} - {k} == m - {k} - {j};
    }
  }

  lemma SumIncrement(m: map<string, nat>, k: string)
    ensures Sum(m[k := StageCount(m, k) + 1]) == Sum(m) + 1
  {
    var m' := m[k := StageCount(m, k) + 1];
    SumSplit(m', k);
    assert m' - {k} == m - {k};
    if k in m { SumSplit(m, k); } else { assert m - {k} == m; }
  }

  // ----- Limits -----

  /** Every limit is respected. */
  ghost predicate Within(cfg: Config, live: Exec) {
    && (cfg.maxActions.Some? ==> live.actionSeq <= cfg.maxActions.value)
    && (forall s :: s in live.stageBranches ==> live.stageBranches[s] <= cfg.perStageCap)
    && live.totalBranches <= cfg.runCap
  }

  /** The run total is the sum of the per-stage counts. */
  ghost predicate Conserved(live: Exec) { live.totalBranches == Sum(live.stageBranches) }

  /** How many branches the kernel was told to open. */
  function BranchesOpened(log: seq<KernelEvent>): nat { |Project(log, OpenedOf)| }

  /** Branches counted that the kernel never opened. */
  function Slack(w: World): int { w.live.totalBranches - BranchesOpened(w.kernel) }

  /** The kernel saw no more branches than were counted, and ended none that it did not open. */
  ghost predicate Accounted(w: World) {
    && 0 <= Slack(w)
    && multiset(Project(w.kernel, EndedOf)) <= multiset(Project(w.kernel, OpenedOf))
  }

  /** No stage call can open a branch any more, whatever the run total is. */
  predicate Spent(cfg: Config, live: Exec) {
    cfg.perStageCap <= 0 || (cfg.maxActions.Some? && live.actionSeq >= cfg.maxActions.value)
  }

  ghost predicate Sound(cfg: Config, w: World) {
    Within(cfg, w.live) && Conserved(w.live) && Accounted(w) && Fresh(w)
  }

  /** Branches counted without a counted action. */
  function Lag(live: Exec): int { live.totalBranches - live.actionSeq }

  lemma ActionBudget(cfg: Config, w: World, stage: string, a: Action, arts: seq<string>)
    ensures var r := Executed(w, stage, a, arts);
      && (Within(cfg, w.live) && CheckBudget(cfg, w.live, stage).None? ==> Within(cfg, r.w.live))
      && (Conserved(w.live) ==> Conserved(r.w.live))
      && Lag(w.live) <= Lag(r.w.live)
      && (!r.raised ==> Lag(w.live) == Lag(r.w.live))
      && r.w.live.totalBranches == w.live.totalBranches + 1
      && w.kernel <= r.w.kernel
  {
    hide Executed, OnlyGates;
    ActionEffect(w, stage, a, arts);
    SumIncrement(w.live.stageBranches, stage);
  }

  lemma ActionAccounted(w: World, stage: string, a: Action, arts: seq<string>)
    ensures var r := Executed(w, stage, a, arts);
      Slack(w) <= Slack(r.w) && (Accounted(w) ==> Accounted(r.w))
  {
    hide Executed, Raises, ActionLog, BodyLog, Project;
    ActionEffect(w, stage, a, arts);
    var log := Executed(w, stage, a, arts).w.kernel;
    ActionLogProjects(w, stage, a, log, OpenedOf);
    ActionLogProjects(w, stage, a, log, EndedOf);
    OpenEvents(stage, a);
    BodyEvents(w.live.runId, stage, a, w.live.decisionSeq);
  }

  lemma OpenEvents(stage: string, a: Action)
    ensures Project(OpenLog(stage, a), OpenedOf) == if a.openFault.AtOpenBranch? then [] else [(stage, a.branch)]
    ensures Project(OpenLog(stage, a), EndedOf) == []
  {
    var e0, e1 := BranchOpened(stage, a.branch), BranchMarked(stage, a.branch, BranchActive);
    ProjectNone(OpenLog(stage, a), EndedOf);
    Single(e0, OpenedOf);
    assert [e0, e1] == [e0] + [e1];
    Split2(e0, e1, OpenedOf);
  }

  lemma BodyEvents(run: string, stage: string, a: Action, n: nat)
    ensures Project(BodyLog(run, stage, a, n), OpenedOf) == []
    ensures var ended := Project(BodyLog(run, stage, a, n), EndedOf); ended == [] || ended == [(stage, a.branch)]
  {
    var body := BodyLog(run, stage, a, n);
    assert forall i :: 0 <= i < |body| ==> OpenedOf(body[i]) == [];
    assert forall i :: 0 <= i < |body| - 1 ==> EndedOf(body[i]) == [];
    assert body != [] ==> EndedOf(body[|body| - 1]) == [] || EndedOf(body[|body| - 1]) == [(stage, a.branch)];
    hide BodyLog, OpenedOf, EndedOf;
    ProjectNone(body, OpenedOf);
    if body != [] { ProjectNone(body[..|body| - 1], EndedOf); }
  }

  /** What is kept on the way from one world to a later one, each property for itself. */
  ghost predicate Keeps(cfg: Config, w: World, v: World) {
    && (Within(cfg, w.live) ==> Within(cfg, v.live))
    && (Conserved(w.live) ==> Conserved(v.live))
    && (Accounted(w) ==> Accounted(v))
    && Lag(w.live) <= Lag(v.live) && Slack(w) <= Slack(v)
    && v.live.totalBranches <= Max(w.live.totalBranches, cfg.runCap)
    && (Spent(cfg, w.live) ==> Spent(cfg, v.live) && v.live.totalBranches == w.live.totalBranches)
    && w.kernel <= v.kernel
  }

  function Max(x: int, y: int): int { if x <= y then y else x }

  lemma {:induction false} LoopBudget(cfg: Config, w: World, stage: string, ps: seq<Action>, arts: seq<string>)
    ensures var l := Loop(cfg, w, stage, ps, arts);
      Keeps(cfg, w, l.w) && (!l.raised ==> Lag(w.live) == Lag(l.w.live))
    decreases |ps|
  {
    hide Executed, Within, Conserved, Project;
    if ps != [] && CheckBudget(cfg, w.live, stage).None? {
      var r := Executed(w, stage, ps[0], arts);
      ActionBudget(cfg, w, stage, ps[0], arts);
      ActionAccounted(w, stage, ps[0], arts);
      if !r.raised { LoopBudget(cfg, r.w, stage, ps[1..], r.artifacts); }
    }
  }

  /** Apart from the loop, a stage call changes only the current stage and the summaries, and
      tells the kernel about stages only. */
  lemma StageFrame(cfg: Config, w: World, stage: string, o: StageOracle)
    ensures var r := StageStep(cfg, w, stage, o);
      var w0 := StageOpening(w, stage, o);
      exists mid: World, events: seq<KernelEvent> ::
        && (mid == w0 || mid == Loop(cfg, w0, stage, o.proposals, []).w)
        && (r.ret != Raised && mid != w0 ==> !Loop(cfg, w0, stage, o.proposals, []).raised)
        && r.w.kernel == mid.kernel + events && OnlyStages(events)
        && r.w.live == mid.live.(summaries := r.w.live.summaries)
  {
    hide Loop, AfterLoop, DeadEnd;
    var w0 := StageOpening(w, stage, o);
    var r := StageStep(cfg, w, stage, o);
    var l := Loop(cfg, w0, stage, o.proposals, []);
    if o.opening.AtOpenStage? || o.opening.AtMarkStageActive? || (!o.skip && o.opening.BeforeLoop?) {
      assert r.w.kernel == w0.kernel + [] && OnlyStages([]);
    } else if o.skip {
      var events := r.w.kernel[|w0.kernel|..];
      assert r.w.kernel == w0.kernel + events && OnlyStages(events);
    } else if l.raised {
      assert r.w.kernel == l.w.kernel + [] && OnlyStages([]);
    } else {
      AfterLoopEvents(cfg, l.w, stage, l.artifacts, o);
      var events := r.w.kernel[|l.w.kernel|..];
      assert r.w.kernel == l.w.kernel + events && OnlyStages(events);
    }
  }

  ghost predicate OnlyStages(events: seq<KernelEvent>) {
    forall i :: 0 <= i < |events| ==> events[i].StageOpened? || events[i].StageMarked?
  }

  /** `v` differs from `w` in summaries and in stage events told to the kernel at most. */
  ghost predicate OnlyCloses(w: World, v: World) {
    && w.kernel <= v.kernel && OnlyStages(v.kernel[|w.kernel|..])
    && v.live == w.live.(summaries := v.live.summaries)
  }

  lemma ClosedEvents(cfg: Config, w: World, stage: string, mark: StageMark, s: Summary, fault: ClosingFault,
                     saves: bool, ret: Returned)
    ensures OnlyCloses(w, Closed(cfg, w, stage, mark, s, fault, saves, ret).w)
  {
  }

  lemma OnlyClosesTwice(w: World, v: World, u: World)
    requires OnlyCloses(w, v) && OnlyCloses(v, u)
    ensures OnlyCloses(w, u)
  {
    assert u.kernel[|w.kernel|..] == v.kernel[|w.kernel|..] + u.kernel[|v.kernel|..];
  }

  lemma AfterLoopEvents(cfg: Config, w: World, stage: string, arts: seq<string>, o: StageOracle)
    ensures OnlyCloses(w, AfterLoop(cfg, w, stage, arts, o).w)
  {
    hide DeadEnd, Closed, OnlyCloses;
    var failed := Summary("failed", arts);
    var done := Summary(o.compressedOutcome, arts);
    ClosedEvents(cfg, w, stage, StageFailed, failed, o.closing, o.traceSaves, FailedStage);
    ClosedEvents(cfg, w, stage, StageCompleted, done, o.closing, o.traceSaves, Completed);
    if o.postHook.Verdict? {
      ClosedEvents(cfg, w, stage, StageFailed, failed, o.postHook.fault, o.traceSaves, FailedStage);
      var v := Closed(cfg, w, stage, StageFailed, failed, o.postHook.fault, o.traceSaves, FailedStage).w;
      ClosedEvents(cfg, v, stage, StageFailed, failed, o.closing, o.traceSaves, FailedStage);
      ClosedEvents(cfg, v, stage, StageCompleted, done, o.closing, o.traceSaves, Completed);
      OnlyClosesTwice(w, v, Closed(cfg, v, stage, StageFailed, failed, o.closing, o.traceSaves, FailedStage).w);
      OnlyClosesTwice(w, v, Closed(cfg, v, stage, StageCompleted, done, o.closing, o.traceSaves, Completed).w);
    }
  }

  lemma StageEventsKeep(cfg: Config, w: World, v: World, events: seq<KernelEvent>)
    requires OnlyStages(events) && v.kernel == w.kernel + events
    requires v.live == w.live.(summaries := v.live.summaries, currentStage := v.live.currentStage)
    ensures Keeps(cfg, w, v) && Lag(w.live) == Lag(v.live)
  {
    AppendNone(w.kernel, events, OpenedOf);
    AppendNone(w.kernel, events, EndedOf);
  }

  lemma KeepsOn(cfg: Config, w: World, v: World, u: World)
    requires Keeps(cfg, w, v) && Keeps(cfg, v, u)
    ensures Keeps(cfg, w, u)
  {
    hide Within, Conserved, Accounted, Slack;
  }

  lemma NothingChanges(cfg: Config, w: World)
    ensures Keeps(cfg, w, w)
  {
  }

  lemma StageLimits(cfg: Config, w: World, stage: string, o: StageOracle)
    ensures var r := StageStep(cfg, w, stage, o);
      Keeps(cfg, w, r.w) && (r.ret != Raised ==> Lag(w.live) == Lag(r.w.live))
  {
    hide Loop, StageStep, Keeps;
    var w0 := StageOpening(w, stage, o);
    var r := StageStep(cfg, w, stage, o);
    StageFrame(cfg, w, stage, o);
    var opening := w0.kernel[|w.kernel|..];
    assert w0.kernel == w.kernel + opening && OnlyStages(opening);
    StageEventsKeep(cfg, w, w0, opening);
    var l := Loop(cfg, w0, stage, o.proposals, []);
    LoopBudget(cfg, w0, stage, o.proposals, []);
    NothingChanges(cfg, w0);
    var mid: World, events: seq<KernelEvent> :|
      && (mid == w0 || mid == l.w)
      && (r.ret != Raised && mid != w0 ==> !l.raised)
      && r.w.kernel == mid.kernel + events && OnlyStages(events)
      && r.w.live == mid.live.(summaries := r.w.live.summaries);
    StageEventsKeep(cfg, mid, r.w, events);
    KeepsOn(cfg, w, w0, mid);
    KeepsOn(cfg, w, mid, r.w);
  }

  lemma StageSound(cfg: Config, w: World, stage: string, o: StageOracle)
    requires Sound(cfg, w)
    ensures var r := StageStep(cfg, w, stage, o);
      Sound(cfg, r.w) && Lag(w.live) <= Lag(r.w.live) && (r.ret != Raised ==> Lag(w.live) == Lag(r.w.live))
  {
    hide Within, Conserved, Accounted, Fresh, StageStep;
    StageFresh(cfg, w, stage, o);
    StageLimits(cfg, w, stage, o);
  }

  ghost predicate NothingRaises(cfg: Config, s: Session, calls: seq<Call>)
    decreases |calls|
  {
    calls == [] ||
    (StageStep(cfg, s.w, calls[0].stage, calls[0].oracle).ret != Raised
     && NothingRaises(cfg, SessionStep(cfg, s, calls[0]), calls[1..]))
  }

  /** What one stage call keeps, every schedule keeps, each property for itself. */
  lemma {:induction false} RunKeeps(cfg: Config, s: Session, calls: seq<Call>)
    ensures Keeps(cfg, s.w, RunCalls(cfg, s, calls).w)
    decreases |calls|
  {
    hide StageStep, Keeps;
    if calls == [] {
      NothingChanges(cfg, s.w);
    } else {
      var next := SessionStep(cfg, s, calls[0]);
      StageLimits(cfg, s.w, calls[0].stage, calls[0].oracle);
      RunKeeps(cfg, next, calls[1..]);
      KeepsOn(cfg, s.w, next.w, RunCalls(cfg, next, calls[1..]).w);
    }
  }

  /** References stay distinct in every schedule, decisions and gates together. */
  lemma {:induction false} RunFresh(cfg: Config, s: Session, calls: seq<Call>)
    requires Fresh(s.w)
    ensures var e := RunCalls(cfg, s, calls).w; Fresh(e) && AllDistinct(e.kernel)
    decreases |calls|
  {
    hide StageStep, Fresh, AllDistinct;
    if calls == [] {
      FreshDistinct(s.w);
    } else {
      StageFresh(cfg, s.w, calls[0].stage, calls[0].oracle);
      RunFresh(cfg, SessionStep(cfg, s, calls[0]), calls[1..]);
    }
  }

  /** Whole-run safety: over every schedule of stage calls, whatever raises in them, all three
      limits hold, the run total is the sum of the stage counts, the kernel never saw more
      branches than were counted nor a terminal mark without its branch, and no decision or
      gate reference repeats. Uncounted actions never decrease the lag, and a schedule
      in which no call raises keeps it. */
  lemma {:induction false} WholeRunSafety(cfg: Config, s: Session, calls: seq<Call>)
    requires Sound(cfg, s.w)
    ensures var e := RunCalls(cfg, s, calls);
      && Sound(cfg, e.w)
      && AllDistinct(e.w.kernel)
      && Lag(s.w.live) <= Lag(e.w.live)
      && (NothingRaises(cfg, s, calls) ==> Lag(s.w.live) == Lag(e.w.live))
    decreases |calls|
  {
    hide StageStep, Sound, AllDistinct;
    if calls == [] {
      SoundDistinct(cfg, s.w);
    } else {
      StageSound(cfg, s.w, calls[0].stage, calls[0].oracle);
      WholeRunSafety(cfg, SessionStep(cfg, s, calls[0]), calls[1..]);
    }
  }

  lemma SoundDistinct(cfg: Config, w: World)
    requires Sound(cfg, w)
    ensures AllDistinct(w.kernel)
  {
    hide Within, Conserved, Accounted, Fresh;
    FreshDistinct(w);
  }

  function FreshExec(run: string): Exec { Exec(run, "", 0, 0, 0, 0, 0, map[], map[], map[]) }

  function FreshSession(run: string): Session { Session(World(FreshExec(run), [], [], map[], []), None, false) }

  /** From a new executor: actions never outnumber branches, they match when nothing raised,
      and the kernel opened at most as many branches as the run cap allows. */
  lemma FreshRunSafety(cfg: Config, run: string, calls: seq<Call>)
    requires cfg.runCap >= 0 && (cfg.maxActions.Some? ==> cfg.maxActions.value >= 0)
    ensures var e := RunCalls(cfg, FreshSession(run), calls);
      && Sound(cfg, e.w)
      && e.w.live.actionSeq <= e.w.live.totalBranches
      && (NothingRaises(cfg, FreshSession(run), calls) ==> e.w.live.actionSeq == e.w.live.totalBranches)
      && BranchesOpened(e.w.kernel) <= cfg.runCap
      && AllDistinct(e.w.kernel)
  {
    var s := FreshSession(run);
    assert Sound(cfg, s.w);
    WholeRunSafety(cfg, s, calls);
  }
}
