/** Entities of one run: trajectory nodes, stage summaries, the executor's restorable
    state, and the logs that its side effects leave behind. */
module RunTypes {
  import opened Options

  datatype NodeState = Open | Expanded | Pruned | Succeeded | Failed

  datatype Node = Node(stage: string, branch: string, state: NodeState)

  datatype Summary = Summary(outcome: string, artifacts: seq<string>)

  datatype StageMark = StageActive | StageCompleted | StageFailed

  datatype BranchMark = BranchActive | BranchSucceeded | BranchFailed(reason: string)

  /** What the kernel was told, in order. */
  datatype KernelEvent =
    | StageOpened(stage: string)
    | StageMarked(stage: string, mark: StageMark)
    | BranchOpened(stage: string, branch: string)
    | BranchMarked(stage: string, branch: string, bmark: BranchMark)
    | TaskViewRecorded(view: string)
    | DecisionBound(view: string, decisionRef: string)
    | GateOpened(gateRef: string)

  /** The recorded run events that the claims below speak about. */
  datatype RunEvent =
    | BudgetExhausted(stage: string, code: FailureCode)
    | StageSkippedByBudget(stage: string)
    | ActionDispatched(stage: string, branch: string, upstream: seq<string>)

  datatype FailureCode = ExecutionBudgetExhausted | ExplorationBudgetExhausted

  /** The part of the run executor that a RunContext stores and restores. */
  datatype Exec = Exec(
    runId: string,
    currentStage: string,
    actionSeq: nat,
    branchSeq: nat,
    decisionSeq: nat,
    gateSeq: nat,
    totalBranches: nat,
    stageBranches: map<string, nat>,
    dag: map<string, Node>,
    summaries: map<string, Summary>)

  /** Everything one stage call can change. `traces` is the in-memory side channel of
      reasoning traces, `saved` what was flushed from it to the short-term store. */
  datatype World = World(
    live: Exec,
    kernel: seq<KernelEvent>,
    events: seq<RunEvent>,
    traces: map<(string, string), seq<string>>,
    saved: seq<(string, seq<string>)>)

  /** Limits in force. `maxActions` is absent when the contract has no task budget.
      `skipSummaryBuilds` says whether the summary record of the budget-skip exit can be
      constructed at all (see SkipSummary). */
  datatype Config = Config(
    maxActions: Option<int>,
    perStageCap: int,
    runCap: int,
    skipSummaryBuilds: bool,
    hasStore: bool)

  function StageCount(counts: map<string, nat>, stage: string): nat {
    if stage in counts then counts[stage] else 0
  }

  /** The failure code of the first exhausted budget, action budget first. */
  function CheckBudget(cfg: Config, live: Exec, stage: string): Option<FailureCode> {
    if cfg.maxActions.Some? && live.actionSeq >= cfg.maxActions.value then Some(ExecutionBudgetExhausted)
    else if StageCount(live.stageBranches, stage) >= cfg.perStageCap then Some(ExplorationBudgetExhausted)
    else if live.totalBranches >= cfg.runCap then Some(ExplorationBudgetExhausted)
    else None
  }

  /** A stage is a dead end when it has nodes, all are terminal and none succeeded. */
  predicate DeadEnd(dag: map<string, Node>, stage: string) {
    && (exists k :: k in dag && dag[k].stage == stage)
    && (forall k :: k in dag && dag[k].stage == stage ==> dag[k].state == Pruned || dag[k].state == Failed)
  }

  // ----- The budget-skip summary -----

  /** A Python dataclass call succeeds when every keyword is a field and every field
      without a default is given. */
  predicate KeywordsFit(fields: set<string>, required: set<string>, given: set<string>) {
    given <= fields && required <= given
  }

  const SUMMARY_FIELDS: set<string> :=
    {"stage_id", "stage_name", "findings", "decisions", "open_questions", "outcome", "artifact_ids"}
  const SUMMARY_REQUIRED: set<string> := {"stage_id", "stage_name"}
  const SKIP_KEYWORDS: set<string> :=
    {"stage_id", "outcome", "score", "branch_count", "selected_branch", "evidence_ids"}

  /** The keywords used on the budget-skip exit do not fit the summary dataclass. */
  lemma SkipSummaryNeverBuilds()
    ensures !KeywordsFit(SUMMARY_FIELDS, SUMMARY_REQUIRED, SKIP_KEYWORDS)
  {
    assert "score" in SKIP_KEYWORDS && "score" !in SUMMARY_FIELDS;
  }

  /** The limits come with the summary dataclass as it is. */
  predicate Shipped(cfg: Config) {
    cfg.skipSummaryBuilds <==> KeywordsFit(SUMMARY_FIELDS, SUMMARY_REQUIRED, SKIP_KEYWORDS)
  }
}
