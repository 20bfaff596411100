/** What one stage call does, as functions on values. The environment (route engine, action
    results, acceptance, middleware, gates and every call that may raise) is an oracle. */
module StageSpec {
  import opened Options
  import opened RunTypes
  import opened Identifiers

  // ----- Oracles -----

  /** Where the part of the loop body before the `try` raises, if it does. */
  datatype OpenFault = OpenOk | AtOpenBranch | AtMarkBranchActive | BeforeNode

  /** Where the `try` body raises; each point precedes the effect it is named after. A point
      that the taken path does not pass has no effect. */
  datatype BodyFault =
    BodyOk | AtDispatch | AtScore | AtVerdict | AtTaskView | AtBind | AtBranchMark | AfterBranchMark

  /** Where the `finally` block raises: at the last gate it opens, between the gates and the
      counter, or after the counter. */
  datatype FinallyFault = FinallyOk | AtGates | BeforeCounter | AfterCounter

  datatype Watchdog = Quiet | OpensGate | GateRaises

  /** One proposal and everything the environment answers while it is executed.
      `exhaustionRaises` says that recording the exhaustion event raises, should the budget
      be found spent in front of this proposal. */
  datatype Action = Action(
    branch: string,
    exhaustionRaises: bool,
    success: bool,
    accepted: bool,
    artifacts: seq<string>,
    viewId: string,
    trace: Option<seq<string>>,
    gates: seq<string>,
    watchdog: Watchdog,
    openFault: OpenFault,
    bodyFault: BodyFault,
    finallyFault: FinallyFault)

  /** Where a closing block (FAILED or COMPLETED mark, summary, snapshot, sync) raises. */
  datatype ClosingFault = ClosingOk | AtStageMark | BeforeSummary | AfterSummary

  /** The post-execute hook: no verdict that matters, or a retry/escalate verdict whose
      handling may itself raise (and is then swallowed). */
  datatype PostHook = NoVerdict | Verdict(fault: ClosingFault)

  datatype OpeningFault = OpeningOk | AtOpenStage | AtMarkStageActive | BeforeLoop

  datatype StageOracle = StageOracle(
    opening: OpeningFault,
    skip: bool,
    proposals: seq<Action>,
    postHook: PostHook,
    closing: ClosingFault,
    compressedOutcome: string,
    traceSaves: bool)

  // ----- Small state changes -----

  function Told(w: World, es: seq<KernelEvent>): World { w.(kernel := w.kernel + es) }

  function Recorded(w: World, e: RunEvent): World { w.(events := w.events + [e]) }

  function KeyOf(live: Exec, stage: string, a: Action): string {
    NodeKey(live.runId, stage, a.branch, live.actionSeq)
  }

  function WithNode(w: World, stage: string, a: Action, st: NodeState): World {
    w.(live := w.live.(dag := w.live.dag[KeyOf(w.live, stage, a) := Node(stage, a.branch, st)]))
  }

  /** get_reasoning_trace followed by appends; no access leaves the table alone. */
  function Traced(w: World, stage: string, steps: Option<seq<string>>): World {
    if steps.None? then w
    else
      var key := (w.live.runId, stage);
      w.(traces := w.traces[key := (if key in w.traces then w.traces[key] else []) + steps.value])
  }

  /** persist_reasoning_trace: pop, then save if there is a store and the save works. */
  function TracePersisted(cfg: Config, w: World, stage: string, saves: bool): World {
    var key := (w.live.runId, stage);
    if key !in w.traces then w
    else
      var popped := w.(traces := w.traces - {key});
      if cfg.hasStore && saves then popped.(saved := w.saved + [(stage, w.traces[key])]) else popped
  }

  // ----- One action -----

  /** Counters, kernel branch and DAG node, up to the point where the `try` starts. */
  function Opened(w: World, stage: string, a: Action): World {
    var live := w.live.(
                  totalBranches := w.live.totalBranches + 1,
                  stageBranches := w.live.stageBranches[stage := StageCount(w.live.stageBranches, stage) + 1]);
    var counted := w.(live := live);
    match a.openFault
    case AtOpenBranch => counted
    case AtMarkBranchActive => Told(counted, [BranchOpened(stage, a.branch)])
    case BeforeNode => Told(counted, [BranchOpened(stage, a.branch), BranchMarked(stage, a.branch, BranchActive)])
    case OpenOk =>
      WithNode(Told(counted, [BranchOpened(stage, a.branch), BranchMarked(stage, a.branch, BranchActive)]),
               stage, a, Open)
  }

  datatype Attempt = Attempt(w: World, artifacts: seq<string>, raised: bool)

  function Marked(w: World, stage: string, a: Action, m: BranchMark): World {
    Told(w, [BranchMarked(stage, a.branch, m)])
  }

  function FailedAction(w: World, stage: string, a: Action, arts: seq<string>): Attempt {
    var w1 := WithNode(w, stage, a, Failed);
    if a.bodyFault == AtBranchMark then Attempt(w1, arts, true)
    else Attempt(Marked(w1, stage, a, BranchFailed("harness_denied")), arts, a.bodyFault == AfterBranchMark)
  }

  function RejectedAction(w: World, stage: string, a: Action, arts: seq<string>): Attempt {
    var w1 := WithNode(w, stage, a, Failed);
    if a.bodyFault == AtBranchMark then Attempt(w1, arts, true)
    else Attempt(Marked(w1, stage, a, BranchFailed("acceptance_rejected")), arts, false)
  }

  function AcceptedAction(w: World, stage: string, a: Action, arts: seq<string>): Attempt {
    if a.bodyFault == AtTaskView then Attempt(w, arts, true)
    else
      var ref := DecisionRef(w.live.runId, stage, a.branch, w.live.decisionSeq);
      var w1 := Told(w, [TaskViewRecorded(a.viewId)]).(live := w.live.(decisionSeq := w.live.decisionSeq + 1));
      if a.bodyFault == AtBind then Attempt(w1, arts, true)
      else
        var w2 := Told(w1, [DecisionBound(a.viewId, ref)]);
        if a.bodyFault == AtBranchMark then Attempt(w2, arts, true)
        else Attempt(Marked(w2, stage, a, BranchSucceeded), arts, a.bodyFault == AfterBranchMark)
  }

  /** The `try` body. */
  function Tried(w: World, stage: string, a: Action, arts: seq<string>): Attempt {
    var w0 := Traced(Recorded(w, ActionDispatched(stage, a.branch, arts)), stage, a.trace);
    if a.bodyFault == AtDispatch then Attempt(w0, arts, true)
    else
      var arts1 := arts + a.artifacts;
      if a.bodyFault == AtScore then Attempt(w0, arts1, true)
      else if !a.success then FailedAction(w0, stage, a, arts1)
      else
        var w1 := WithNode(w0, stage, a, Succeeded);
        if a.bodyFault == AtVerdict then Attempt(w1, arts1, true)
        else if !a.accepted then RejectedAction(w1, stage, a, arts1)
        else AcceptedAction(w1, stage, a, arts1)
  }

  /** Each gate takes the next gate number; the last one's kernel call may raise. */
  function GatesOpened(w: World, gates: seq<string>, lastRaises: bool): World
    decreases |gates|
  {
    if gates == [] then w
    else
      var numbered := w.(live := w.live.(gateSeq := w.live.gateSeq + 1));
      if |gates| == 1 && lastRaises then numbered
      else
        GatesOpened(Told(numbered, [GateOpened(GateRef(w.live.runId, gates[0], w.live.gateSeq))]),
                    gates[1..], lastRaises)
  }

  /** The `finally` block; the flag says whether it raises itself. */
  function Finished(w: World, a: Action): (World, bool) {
    var w1 := GatesOpened(w, a.gates, a.finallyFault == AtGates);
    if a.finallyFault == AtGates then (w1, true)
    else
      var w2 := if a.watchdog.Quiet? then w1
                else GatesOpened(w1, ["route_direction"], a.watchdog.GateRaises?);
      if a.finallyFault == BeforeCounter then (w2, true)
      else (w2.(live := w2.live.(actionSeq := w2.live.actionSeq + 1)), a.finallyFault == AfterCounter)
  }

  function Executed(w: World, stage: string, a: Action, arts: seq<string>): Attempt {
    var w0 := Opened(w, stage, a);
    if !a.openFault.OpenOk? then Attempt(w0, arts, true)
    else
      var t := Tried(w0, stage, a, arts);
      var f := Finished(t.w, a);
      Attempt(f.0, t.artifacts, t.raised || f.1)
  }

  // ----- The proposal loop -----

  function Loop(cfg: Config, w: World, stage: string, proposals: seq<Action>, arts: seq<string>): Attempt
    decreases |proposals|
  {
    if proposals == [] then Attempt(w, arts, false)
    else
      match CheckBudget(cfg, w.live, stage)
      case Some(code) => Attempt(Recorded(w, BudgetExhausted(stage, code)), arts, proposals[0].exhaustionRaises)
      case None =>
        var r := Executed(w, stage, proposals[0], arts);
        if r.raised then r else Loop(cfg, r.w, stage, proposals[1..], r.artifacts)
  }

  // ----- Closing a stage -----

  /** None stands for the source's `None` result, Failed for the string "failed". */
  datatype Returned = Completed | FailedStage | Raised

  /** `synced` says that _sync_to_context ran, which is then the last change to `w.live`. */
  datatype StageResult = StageResult(w: World, ret: Returned, synced: bool)

  function WithSummary(w: World, stage: string, s: Summary): World {
    w.(live := w.live.(summaries := w.live.summaries[stage := s]))
  }

  /** Mark, recovery, summary and snapshot, up to where a step raises. */
  function Summarised(w: World, stage: string, mark: StageMark, s: Summary, fault: ClosingFault): World {
    if fault == AtStageMark then w
    else
      var marked := Told(w, [StageMarked(stage, mark)]);
      if fault == BeforeSummary then marked else WithSummary(marked, stage, s)
  }

  /** The three closing blocks share it: mark and summary, then sync and trace. */
  function Closed(cfg: Config, w: World, stage: string, mark: StageMark, s: Summary,
                  fault: ClosingFault, saves: bool, ret: Returned): StageResult
  {
    var summarised := Summarised(w, stage, mark, s, fault);
    if fault != ClosingOk then StageResult(summarised, Raised, false)
    else StageResult(TracePersisted(cfg, summarised, stage, saves), ret, true)
  }

  /** The post-execute block: a verdict whose handling goes through closes the stage as failed;
      an exception in it is swallowed, whatever it has done by then. */
  function Hooked(cfg: Config, w: World, stage: string, arts: seq<string>, o: StageOracle): StageResult {
    match o.postHook
    case NoVerdict => StageResult(w, Raised, false)
    case Verdict(fault) =>
      Closed(cfg, w, stage, StageFailed, Summary("failed", arts), fault, o.traceSaves, FailedStage)
  }

  /** The last two exits: dead end or completion. */
  function Ended(cfg: Config, w: World, stage: string, arts: seq<string>, o: StageOracle): StageResult {
    if DeadEnd(w.live.dag, stage) then
      Closed(cfg, w, stage, StageFailed, Summary("failed", arts), o.closing, o.traceSaves, FailedStage)
    else
      Closed(cfg, w, stage, StageCompleted, Summary(o.compressedOutcome, arts), o.closing, o.traceSaves, Completed)
  }

  /** After the loop: the post-execute block, then dead end or completion. */
  function AfterLoop(cfg: Config, w: World, stage: string, arts: seq<string>, o: StageOracle): StageResult {
    var hooked := Hooked(cfg, w, stage, arts, o);
    if hooked.ret == FailedStage then hooked else Ended(cfg, hooked.w, stage, arts, o)
  }

  /** The budget-skip exit: it marks COMPLETED before it builds its summary, and it does
      not sync. */
  function Skipped(cfg: Config, w: World, stage: string, o: StageOracle): StageResult {
    var w0 := Recorded(w, StageSkippedByBudget(stage));
    if o.closing == AtStageMark then StageResult(w0, Raised, false)
    else
      var w1 := Told(w0, [StageMarked(stage, StageCompleted)]);
      if !cfg.skipSummaryBuilds then StageResult(w1, Raised, false)
      else
        StageResult(TracePersisted(cfg, WithSummary(w1, stage, Summary("skipped_by_budget", [])), stage, o.traceSaves),
                    Completed, false)
  }

  function StageOpening(w: World, stage: string, o: StageOracle): World {
    var w0 := w.(live := w.live.(currentStage := stage));
    match o.opening
    case AtOpenStage => w0
    case AtMarkStageActive => Told(w0, [StageOpened(stage)])
    case _ => Told(w0, [StageOpened(stage), StageMarked(stage, StageActive)])
  }

  function StageStep(cfg: Config, w: World, stage: string, o: StageOracle): StageResult {
    var w0 := StageOpening(w, stage, o);
    if o.opening == AtOpenStage || o.opening == AtMarkStageActive then StageResult(w0, Raised, false)
    else if o.skip then Skipped(cfg, w0, stage, o)
    else if o.opening == BeforeLoop then StageResult(w0, Raised, false)
    else
      var l := Loop(cfg, w0, stage, o.proposals, []);
      if l.raised then StageResult(l.w, Raised, false) else AfterLoop(cfg, l.w, stage, l.artifacts, o)
  }

  // ----- The RunContext -----

  /** What a RunContext shows after a stage call. Until the first sync an executor built from
      a context works on the context's own dictionaries, so it shows their new contents next
      to its old counters; a sync stores everything except the run id. */
  function ContextAfter(ctx: Option<Exec>, shared: bool, live: Exec, synced: bool): Option<Exec> {
    match ctx
    case None => None
    case Some(c) =>
      if synced then Some(live.(runId := c.runId))
      else if shared then
        Some(c.(dag := live.dag, summaries := live.summaries, stageBranches := live.stageBranches))
      else Some(c)
  }
}
