/** The stage executor as the source has it: objects whose methods update fields, with the
    run's dictionaries as shared objects. Every method is proved equal to StageSpec. */
module StageExecution {
  import opened Options
  import opened RunTypes
  import opened Identifiers
  import opened StageSpec
  import ActionProperties

  // ----- The dictionaries, as the mutable objects they are -----

  class DagTable {
    var nodes: map<string, Node>
    constructor (m: map<string, Node>)
      ensures nodes == m
    { nodes := m; }
  }

  class SummaryTable {
    var rows: map<string, Summary>
    constructor (m: map<string, Summary>)
      ensures rows == m
    { rows := m; }
  }

  class CountTable {
    var counts: map<string, nat>
    constructor (m: map<string, nat>)
      ensures counts == m
    { counts := m; }
  }

  class Kernel {
    var log: seq<KernelEvent>
    constructor ()
      ensures log == []
    { log := []; }

    method Tell(e: KernelEvent)
      modifies this
      ensures log == old(log) + [e]
    { log := log + [e]; }
  }

  class RunContext {
    const runId: string
    var currentStage: string
    var actionSeq: nat
    var branchSeq: nat
    var decisionSeq: nat
    var gateSeq: nat
    var totalBranches: nat
    var dag: DagTable
    var summaries: SummaryTable
    var counts: CountTable

    /** A new context: zero counters, empty dictionaries. */
    constructor (id: string)
      ensures runId == id && fresh(dag) && fresh(summaries) && fresh(counts)
      ensures View() == Exec(id, "", 0, 0, 0, 0, 0, map[], map[], map[])
    {
      runId, currentStage := id, "";
      actionSeq, branchSeq, decisionSeq, gateSeq, totalBranches := 0, 0, 0, 0, 0;
      dag := new DagTable(map[]);
      summaries := new SummaryTable(map[]);
      counts := new CountTable(map[]);
    }

    function View(): Exec
      reads this, dag, summaries, counts
    {
      Exec(runId, currentStage, actionSeq, branchSeq, decisionSeq, gateSeq, totalBranches,
           counts.counts, dag.nodes, summaries.rows)
    }
  }

  class RunExecutor {
    const runId: string
    const context: RunContext?
    var currentStage: string
    var actionSeq: nat
    var branchSeq: nat
    var decisionSeq: nat
    var gateSeq: nat
    var totalBranches: nat
    var dag: DagTable
    var summaries: SummaryTable
    var counts: CountTable
    var events: seq<RunEvent>

    /** An executor without a context starts from zero; with one, it takes over the counters
        by value and the dictionaries by reference. The context's run id is not taken over. */
    constructor (id: string, ctx: RunContext?)
      ensures runId == id && context == ctx && events == []
      ensures ctx == null ==> Snapshot() == Exec(id, "", 0, 0, 0, 0, 0, map[], map[], map[])
      ensures ctx == null ==> fresh(dag) && fresh(summaries) && fresh(counts)
      ensures ctx != null ==> Snapshot() == ctx.View().(runId := id) && Shared()
      ensures Valid()
    {
      runId, context, events := id, ctx, [];
      if ctx == null {
        currentStage := "";
        actionSeq, branchSeq, decisionSeq, gateSeq, totalBranches := 0, 0, 0, 0, 0;
        dag := new DagTable(map[]);
        summaries := new SummaryTable(map[]);
        counts := new CountTable(map[]);
      } else {
        currentStage := ctx.currentStage;
        actionSeq, branchSeq, decisionSeq := ctx.actionSeq, ctx.branchSeq, ctx.decisionSeq;
        gateSeq, totalBranches := ctx.gateSeq, ctx.totalBranches;
        dag, summaries, counts := ctx.dag, ctx.summaries, ctx.counts;
      }
    }

    /** The dictionaries are either all shared with the context or none of them is. */
    predicate Valid()
      reads this, context
    {
      context != null ==>
        (context.dag == dag <==> context.summaries == summaries) && (context.dag == dag <==> context.counts == counts)
    }

    predicate Shared()
      reads this, context
    {
      context != null && context.dag == dag && context.summaries == summaries && context.counts == counts
    }

    function Snapshot(): Exec
      reads this, dag, summaries, counts
    {
      Exec(runId, currentStage, actionSeq, branchSeq, decisionSeq, gateSeq, totalBranches,
           counts.counts, dag.nodes, summaries.rows)
    }

    function ContextView(): Option<Exec>
      reads this, context
      reads if context == null then {} else {context.dag, context.summaries, context.counts}
    {
      if context == null then None else Some(context.View())
    }

    method MakeDecisionRef(stage: string, branch: string) returns (r: string)
      modifies this`decisionSeq
      ensures r == DecisionRef(runId, stage, branch, old(decisionSeq))
      ensures decisionSeq == old(decisionSeq) + 1
    {
      r := DecisionRef(runId, stage, branch, decisionSeq);
      decisionSeq := decisionSeq + 1;
    }

    method MakeGateRef(gateType: string) returns (r: string)
      modifies this`gateSeq
      ensures r == GateRef(runId, gateType, old(gateSeq))
      ensures gateSeq == old(gateSeq) + 1
    {
      r := GateRef(runId, gateType, gateSeq);
      gateSeq := gateSeq + 1;
    }

    /** Copies the counters and gives the context copies of the dictionaries, which ends any
        sharing. */
    method SyncToContext()
      requires Valid()
      modifies context
      ensures Valid() && !Shared()
      ensures ContextView() == ContextAfter(old(ContextView()), old(Shared()), Snapshot(), true)
    {
      if context == null { return; }
      var copiedDag := new DagTable(dag.nodes);
      var copiedSummaries := new SummaryTable(summaries.rows);
      var copiedCounts := new CountTable(counts.counts);
      context.dag, context.summaries, context.counts := copiedDag, copiedSummaries, copiedCounts;
      context.actionSeq, context.branchSeq, context.decisionSeq := actionSeq, branchSeq, decisionSeq;
      context.currentStage, context.totalBranches, context.gateSeq := currentStage, totalBranches, gateSeq;
    }

    /** The code of the first exhausted budget; there is none exactly when one more action is
        admitted, and the action budget goes first. */
    method CheckBudgetExceeded(cfg: Config, stage: string) returns (code: Option<FailureCode>)
      ensures code == CheckBudget(cfg, Snapshot(), stage)
      ensures code.None? <==> ActionProperties.Admitted(cfg, Snapshot(), stage, 1) == 1
      ensures code.Some? ==> code.value == ActionProperties.ExhaustionCode(cfg, Snapshot())
    {
      if cfg.maxActions.Some? && actionSeq >= cfg.maxActions.value { return Some(ExecutionBudgetExhausted); }
      var inStage := if stage in counts.counts then counts.counts[stage] else 0;
      if inStage >= cfg.perStageCap { return Some(ExplorationBudgetExhausted); }
      if totalBranches >= cfg.runCap { return Some(ExplorationBudgetExhausted); }
      return None;
    }
  }

  class StageExecutor {
    const kernel: Kernel
    const cfg: Config
    var traces: map<(string, string), seq<string>>
    var saved: seq<(string, seq<string>)>

    constructor (k: Kernel, c: Config)
      ensures kernel == k && cfg == c && traces == map[] && saved == []
    {
      kernel, cfg, traces, saved := k, c, map[], [];
    }

    function WorldOf(ex: RunExecutor): World
      reads this, kernel, ex, ex.dag, ex.summaries, ex.counts
    {
      World(ex.Snapshot(), kernel.log, ex.events, traces, saved)
    }

    // ----- Reasoning traces -----

    /** get_reasoning_trace and the appends of one action. */
    method AppendTrace(ex: RunExecutor, stage: string, steps: Option<seq<string>>)
      modifies this`traces
      ensures WorldOf(ex) == Traced(old(WorldOf(ex)), stage, steps)
    {
      if steps.Some? {
        var key := (ex.runId, stage);
        var before := if key in traces then traces[key] else [];
        traces := traces[key := before + steps.value];
      }
    }

    method PersistTrace(ex: RunExecutor, stage: string, saves: bool)
      modifies this
      ensures WorldOf(ex) == TracePersisted(cfg, old(WorldOf(ex)), stage, saves)
    {
      var key := (ex.runId, stage);
      if key !in traces { return; }
      var trace := traces[key];
      traces := traces - {key};
      if !cfg.hasStore { return; }
      if saves { saved := saved + [(stage, trace)]; }
    }

    // ----- One action -----

    method OpenBranch(ex: RunExecutor, stage: string, a: Action) returns (raised: bool)
      modifies ex, ex.dag, ex.counts, kernel
      ensures ex.dag == old(ex.dag) && ex.summaries == old(ex.summaries) && ex.counts == old(ex.counts)
      ensures WorldOf(ex) == Opened(old(WorldOf(ex)), stage, a)
      ensures raised == !a.openFault.OpenOk?
    {
      ex.totalBranches := ex.totalBranches + 1;
      var before := if stage in ex.counts.counts then ex.counts.counts[stage] else 0;
      ex.counts.counts := ex.counts.counts[stage := before + 1];
      if a.openFault.AtOpenBranch? { return true; }
      kernel.Tell(BranchOpened(stage, a.branch));
      if a.openFault.AtMarkBranchActive? { return true; }
      kernel.Tell(BranchMarked(stage, a.branch, BranchActive));
      if a.openFault.BeforeNode? { return true; }
      SetNode(ex, stage, a, Open);
      return false;
    }

    method SetNode(ex: RunExecutor, stage: string, a: Action, st: NodeState)
      modifies ex.dag
      ensures WorldOf(ex) == WithNode(old(WorldOf(ex)), stage, a, st)
    {
      var key := NodeKey(ex.runId, stage, a.branch, ex.actionSeq);
      ex.dag.nodes := ex.dag.nodes[key := Node(stage, a.branch, st)];
    }

    /** Task view, decision and SUCCEEDED mark of an accepted action. */
    method BindDecision(ex: RunExecutor, stage: string, a: Action) returns (raised: bool)
      modifies ex, kernel
      ensures ex.dag == old(ex.dag) && ex.summaries == old(ex.summaries) && ex.counts == old(ex.counts)
      ensures forall arts :: AcceptedAction(old(WorldOf(ex)), stage, a, arts) == Attempt(WorldOf(ex), arts, raised)
    {
      if a.bodyFault.AtTaskView? { return true; }
      kernel.Tell(TaskViewRecorded(a.viewId));
      var ref := ex.MakeDecisionRef(stage, a.branch);
      if a.bodyFault.AtBind? { return true; }
      kernel.Tell(DecisionBound(a.viewId, ref));
      if a.bodyFault.AtBranchMark? { return true; }
      kernel.Tell(BranchMarked(stage, a.branch, BranchSucceeded));
      return a.bodyFault.AfterBranchMark?;
    }

    /** The `try` body. */
    method TryAction(ex: RunExecutor, stage: string, a: Action, arts: seq<string>)
      returns (artifacts: seq<string>, raised: bool)
      modifies this, ex, ex.dag, kernel
      ensures ex.dag == old(ex.dag) && ex.summaries == old(ex.summaries) && ex.counts == old(ex.counts)
      ensures Tried(old(WorldOf(ex)), stage, a, arts) == Attempt(WorldOf(ex), artifacts, raised)
    {
      ex.events := ex.events + [ActionDispatched(stage, a.branch, arts)];
      AppendTrace(ex, stage, a.trace);
      artifacts := arts;
      if a.bodyFault.AtDispatch? { return artifacts, true; }
      artifacts := artifacts + a.artifacts;
      if a.bodyFault.AtScore? { return artifacts, true; }
      SetNode(ex, stage, a, if a.success then Succeeded else Failed);
      if a.success {
        if a.bodyFault.AtVerdict? { return artifacts, true; }
        if !a.accepted {
          SetNode(ex, stage, a, Failed);
          if a.bodyFault.AtBranchMark? { return artifacts, true; }
          kernel.Tell(BranchMarked(stage, a.branch, BranchFailed("acceptance_rejected")));
          return artifacts, false;
        } else {
          raised := BindDecision(ex, stage, a);
        }
      } else {
        if a.bodyFault.AtBranchMark? { return artifacts, true; }
        kernel.Tell(BranchMarked(stage, a.branch, BranchFailed("harness_denied")));
        raised := a.bodyFault.AfterBranchMark?;
      }
    }

    method OpenGates(ex: RunExecutor, gates: seq<string>, lastRaises: bool)
      modifies ex, kernel
      ensures ex.dag == old(ex.dag) && ex.summaries == old(ex.summaries) && ex.counts == old(ex.counts)
      ensures WorldOf(ex) == GatesOpened(old(WorldOf(ex)), gates, lastRaises)
      decreases |gates|
    {
      if gates == [] { return; }
      var ref := ex.MakeGateRef(gates[0]);
      if |gates| == 1 && lastRaises { return; }
      kernel.Tell(GateOpened(ref));
      OpenGates(ex, gates[1..], lastRaises);
    }

    /** The `finally` block. */
    method FinishAction(ex: RunExecutor, a: Action) returns (raised: bool)
      modifies ex, kernel
      ensures ex.dag == old(ex.dag) && ex.summaries == old(ex.summaries) && ex.counts == old(ex.counts)
      ensures (WorldOf(ex), raised) == Finished(old(WorldOf(ex)), a)
    {
      OpenGates(ex, a.gates, a.finallyFault.AtGates?);
      if a.finallyFault.AtGates? { return true; }
      if !a.watchdog.Quiet? { OpenGates(ex, ["route_direction"], a.watchdog.GateRaises?); }
      if a.finallyFault.BeforeCounter? { return true; }
      ex.actionSeq := ex.actionSeq + 1;
      return a.finallyFault.AfterCounter?;
    }

    // ----- The stage -----

    /** The proposal loop. */
    method RunProposals(ex: RunExecutor, stage: string, proposals: seq<Action>)
      returns (artifacts: seq<string>, raised: bool)
      modifies this, ex, ex.dag, ex.counts, kernel
      ensures ex.dag == old(ex.dag) && ex.summaries == old(ex.summaries) && ex.counts == old(ex.counts)
      ensures Loop(cfg, old(WorldOf(ex)), stage, proposals, []) == Attempt(WorldOf(ex), artifacts, raised)
    {
      artifacts, raised := [], false;
      var i := 0;
      while i < |proposals|
        invariant 0 <= i <= |proposals| && !raised
        invariant ex.dag == old(ex.dag) && ex.summaries == old(ex.summaries) && ex.counts == old(ex.counts)
        invariant Loop(cfg, old(WorldOf(ex)), stage, proposals, [])
               == Loop(cfg, WorldOf(ex), stage, proposals[i..], artifacts)
      {
        assert proposals[i..][1..] == proposals[i + 1..];
        var code := ex.CheckBudgetExceeded(cfg, stage);
        if code.Some? {
          ex.events := ex.events + [BudgetExhausted(stage, code.value)];
          raised := proposals[i].exhaustionRaises;
          return;
        }
        raised := OpenBranch(ex, stage, proposals[i]);
        if raised { return; }
        artifacts, raised := TryAction(ex, stage, proposals[i], artifacts);
        var finallyRaised := FinishAction(ex, proposals[i]);
        if raised || finallyRaised { raised := true; return; }
        i := i + 1;
      }
    }

    /** Mark and summary; a raise leaves what was done by then. */
    method RecordSummary(ex: RunExecutor, stage: string, mark: StageMark, s: Summary, fault: ClosingFault)
      requires ex.Valid()
      modifies ex.summaries, kernel
      ensures WorldOf(ex) == Summarised(old(WorldOf(ex)), stage, mark, s, fault)
      ensures ex.ContextView() == ContextAfter(old(ex.ContextView()), old(ex.Shared()), ex.Snapshot(), false)
    {
      if fault.AtStageMark? { return; }
      kernel.Tell(StageMarked(stage, mark));
      if fault.BeforeSummary? { return; }
      ex.summaries.rows := ex.summaries.rows[stage := s];
    }

    /** Mark, summary, sync and trace flush; returns Raised when a step raises. */
    method CloseStage(ex: RunExecutor, stage: string, mark: StageMark, s: Summary, fault: ClosingFault,
                      saves: bool, ret: Returned)
      returns (r: Returned, ghost synced: bool)
      requires ex.Valid()
      modifies this, ex.summaries, ex.context, kernel
      ensures Closed(cfg, old(WorldOf(ex)), stage, mark, s, fault, saves, ret) == StageResult(WorldOf(ex), r, synced)
      ensures synced ==> r == ret
      ensures ex.Valid() && ex.Shared() == (old(ex.Shared()) && !synced)
      ensures ex.ContextView() == ContextAfter(old(ex.ContextView()), old(ex.Shared()), ex.Snapshot(), synced)
    {
      hide Summarised, TracePersisted;
      RecordSummary(ex, stage, mark, s, fault);
      if !fault.ClosingOk? { return Raised, false; }
      ex.SyncToContext();
      PersistTrace(ex, stage, saves);
      return ret, true;
    }

    /** The budget-skip exit. */
    method SkipStage(ex: RunExecutor, stage: string, o: StageOracle) returns (r: Returned)
      requires ex.Valid()
      modifies this, ex, ex.summaries, kernel
      ensures ex.dag == old(ex.dag) && ex.summaries == old(ex.summaries) && ex.counts == old(ex.counts)
      ensures Skipped(cfg, old(WorldOf(ex)), stage, o) == StageResult(WorldOf(ex), r, false)
    {
      ex.events := ex.events + [StageSkippedByBudget(stage)];
      if o.closing.AtStageMark? { return Raised; }
      kernel.Tell(StageMarked(stage, StageCompleted));
      if !cfg.skipSummaryBuilds { return Raised; }
      ex.summaries.rows := ex.summaries.rows[stage := Summary("skipped_by_budget", [])];
      PersistTrace(ex, stage, o.traceSaves);
      return Completed;
    }

    /** The post-execute block. Raised stands for an exception that was swallowed, and for no
        verdict at all. */
    method HandleVerdict(ex: RunExecutor, stage: string, artifacts: seq<string>, o: StageOracle)
      returns (r: Returned, ghost synced: bool)
      requires ex.Valid()
      modifies this, ex, ex.summaries, ex.context, kernel
      ensures ex.dag == old(ex.dag) && ex.summaries == old(ex.summaries) && ex.counts == old(ex.counts)
      ensures Hooked(cfg, old(WorldOf(ex)), stage, artifacts, o) == StageResult(WorldOf(ex), r, synced)
      ensures synced ==> r == FailedStage
      ensures ex.Valid() && ex.Shared() == (old(ex.Shared()) && !synced)
      ensures ex.ContextView() == ContextAfter(old(ex.ContextView()), old(ex.Shared()), ex.Snapshot(), synced)
    {
      hide Closed;
      match o.postHook
      case NoVerdict =>
        return Raised, false;
      case Verdict(fault) =>
        r, synced := CloseStage(ex, stage, StageFailed, Summary("failed", artifacts), fault, o.traceSaves, FailedStage);
    }

    /** Dead end or completion. */
    method EndStage(ex: RunExecutor, stage: string, artifacts: seq<string>, o: StageOracle)
      returns (r: Returned, ghost synced: bool)
      requires ex.Valid()
      modifies this, ex, ex.summaries, ex.context, kernel
      ensures Ended(cfg, old(WorldOf(ex)), stage, artifacts, o) == StageResult(WorldOf(ex), r, synced)
      ensures ex.Valid() && ex.Shared() == (old(ex.Shared()) && !synced)
      ensures ex.ContextView() == ContextAfter(old(ex.ContextView()), old(ex.Shared()), ex.Snapshot(), synced)
    {
      hide Closed;
      if DeadEnd(ex.dag.nodes, stage) {
        r, synced := CloseStage(ex, stage, StageFailed, Summary("failed", artifacts), o.closing,
                                o.traceSaves, FailedStage);
      } else {
        r, synced := CloseStage(ex, stage, StageCompleted, Summary(o.compressedOutcome, artifacts), o.closing,
                                o.traceSaves, Completed);
      }
    }

    /** The post-execute block, then dead end or completion. */
    method FinishStage(ex: RunExecutor, stage: string, artifacts: seq<string>, o: StageOracle)
      returns (r: Returned, ghost synced: bool)
      requires ex.Valid()
      modifies this, ex, ex.summaries, ex.context, kernel
      ensures AfterLoop(cfg, old(WorldOf(ex)), stage, artifacts, o) == StageResult(WorldOf(ex), r, synced)
      ensures ex.Valid() && ex.Shared() == (old(ex.Shared()) && !synced)
      ensures ex.ContextView() == ContextAfter(old(ex.ContextView()), old(ex.Shared()), ex.Snapshot(), synced)
    {
      hide Hooked, Ended;
      r, synced := HandleVerdict(ex, stage, artifacts, o);
      if r == FailedStage { return; }
      r, synced := EndStage(ex, stage, artifacts, o);
    }

    method OpenStage(ex: RunExecutor, stage: string, o: StageOracle)
      modifies ex, kernel
      ensures ex.dag == old(ex.dag) && ex.summaries == old(ex.summaries) && ex.counts == old(ex.counts)
      ensures WorldOf(ex) == StageOpening(old(WorldOf(ex)), stage, o)
    {
      ex.currentStage := stage;
      if o.opening.AtOpenStage? { return; }
      kernel.Tell(StageOpened(stage));
      if o.opening.AtMarkStageActive? { return; }
      kernel.Tell(StageMarked(stage, StageActive));
    }

    method ExecuteStage(ex: RunExecutor, stage: string, o: StageOracle) returns (r: Returned, ghost synced: bool)
      requires ex.Valid()
      modifies this, ex, ex.dag, ex.summaries, ex.counts, ex.context, kernel
      ensures StageStep(cfg, old(WorldOf(ex)), stage, o) == StageResult(WorldOf(ex), r, synced)
      ensures ex.Valid() && ex.Shared() == (old(ex.Shared()) && !synced)
      ensures ex.ContextView() == ContextAfter(old(ex.ContextView()), old(ex.Shared()), ex.Snapshot(), synced)
    {
      synced := false;
      OpenStage(ex, stage, o);
      if o.opening.AtOpenStage? || o.opening.AtMarkStageActive? { return Raised, false; }
      if o.skip {
        r := SkipStage(ex, stage, o);
        return;
      }
      if o.opening.BeforeLoop? { return Raised, false; }
      var artifacts, raised := RunProposals(ex, stage, o.proposals);
      if raised { return Raised, false; }
      r, synced := FinishStage(ex, stage, artifacts, o);
    }
  }
}
