# hi-agent: verified model of runs, hand-offs, sub-runs and release scoring

This project models the parts of hi-agent where control flow, state and faults interact, and
proves what holds over every run.

* **Stage execution.** `StageExecution.dfy` has the stage executor as the source has it: objects
  with mutable fields, dictionaries shared by reference between an executor and the RunContext it
  was built from, a proposal loop with an inner `try`/`finally`, and a post-execute block that
  swallows exceptions. Every point at which a call may raise is a fault point of the environment.
  Each method is proved equal to a function in `StageSpec.dfy`; the theorems are about those
  functions (`ActionProperties`, `BranchAgreement`, `StageOutcome`, `Freshness`, `DeadEnds`,
  `CleanStages`, `GateLogs`).
* **Runs.** `RunSessions.dfy` and `RunOutcomes.dfy` have schedules of stage calls, `Handoff.dfy` moving a run to a new
  executor, `RunGuards.dfy` and `GuardedExecution.dfy` the guards and human gates in front,
  `ResumeExecution.dfy` building a new executor from a context or a checkpoint file,
  `Checkpoints.dfy` the gate and the guards after a resume from a checkpoint file, and
  `ResumedRuns.dfy` the references, branches and actions of every schedule after it. What only some
  schedule does is shown with calls that the shipped adapter, gate triggers and default watchdog
  can bring about (`ShippedCalls.dfy`).
* **Sub-runs.** `SubRuns.dfy` has dispatch, the done-callback and both awaits as steps that
  interleave freely, and the executor's methods over its two dictionaries.
* **Release score.** `ReleaseScore.dfy`, `ScoreMeaning.dfy` and `ScoreOrdering.dfy` have the rule
  parser, the conditions, the caps, the three scores and their order.
* **Smaller parts.** `CommitWalk.dfy`, `ContractFreeze.dfy`, `GateStrictness.dfy` with `Blocks.dfy`,
  `Postmortem.dfy`, and the helpers `Firsts.dfy`, `Strings.dfy` and `Options.dfy`.

The environment answers arbitrarily: route engine, action results, acceptance, gates opened,
middleware verdict, recovery, compressor outcome, clock, cancellation, file contents, commit graph,
file hash. `deterministic_id` is taken as injective by keying the DAG with the text it hashes.

## What the proofs brought out

Where code and comments disagree the model follows the code.

* The budget-skip exit of `execute_stage` (hi_agent/runner_stage.py:252-260) builds its summary with
  keywords that the dataclass does not have (hi_agent/contracts/memory.py:10-19) and without a
  required one. It therefore raises after the stage was marked completed, and never returns None.
  The model keeps the exit and makes the construction a configuration flag
  (`skipSummaryBuilds`), which the dataclass makes false (`RunTypes.Shipped`). All theorems hold for
  both values; `StageOutcome.ShippedSkip` and `Handoff.ShippedSkipUnsynced` say what the shipped exit
  leaves behind.
* `persist_reasoning_trace` says that it always writes; it writes nothing when the trace was never
  accessed (hi_agent/runner_stage.py:119-121). `CleanStages.TraceWrittenExact` says when a normal
  return writes, `CleanStages.QuietStageWritesNothing` shows one that does not.
* A node that a raise leaves open keeps its stage from ever being a dead end again, so a later attempt
  in which every action fails is reported as completed (`DeadEnds.DeadEndAfter`).
* A RunContext stores neither the terminated flag nor the pending gate, and its run id is not
  restored (`RunGuards.HandoffExact`).
* The checkpoint resume restores the pending gate "only if not subsequently resolved", but any later
  decision counts as resolving it (`Checkpoints.RestoredGateExact`). It rebuilds the contract without
  a deadline, which also a pending gate hides only until it is resolved
  (`Checkpoints.ResumedGuardExact`). It restarts the decision, gate and branch counters, so references
  are issued again (`ResumedRuns.ResumedFreshExact`) and the run cap counts anew
  (`ResumedRuns.ResumedBranchesExact`). The rebuilt contract has no action budget either, so only the
  branch limits still bound the actions (`ResumedRuns.ResumedActionsExact`).
* The failure record of the sub-run callback is stored where readers expect a delegation result and is
  never delivered (`SubRuns.FailureRecordNeverDelivered`).
* The handler in `await_subrun` that is meant for a missing event loop also takes a RuntimeError of the
  sub-run itself, unless its text names `await_subrun`, and then removes the handle a second time: the
  caller gets a KeyError instead of the sub-run's exception (`SubRuns.FailedReport`).
* An unreadable wave file is said to exempt no annotation; wave 0 exempts every annotation with a
  positive wave (`GateStrictness.WaveZeroExempts`), and no other
  (`GateStrictness.WaveZeroExcusesAnnotated`, `GateStrictness.NoneExemptExact`).
* The merge handling of the history walk stops at the merge itself when the branch head is functional
  (`CommitWalk.MergeExact`).
* A rule without a cap counts as 70 for the cap and as 100 for the conditional score, and the
  conditional score ignores rule scopes (`ReleaseScore.ComputeConditional`).

## Model

| member | source | states |
|---|---|---|
| Identifiers.ValueOfPadded3 | hi_agent/runner.py:947 | reading back a counter formatted with `:03d` gives the counter, for every value, past 999 too |
| Identifiers.NumberUnique | hi_agent/runner.py:945-949 | a reference tells its kind, decision or gate, and its counter, whatever colons and digits its run, stage, branch or gate type contain |
| Identifiers.DecisionBranch | hi_agent/runner.py:945-949 | within a run and stage a decision reference tells its branch |
| Identifiers.NodeKeyCounter | hi_agent/runner_stage.py:481-487 | equal DAG keys carry equal action numbers, also when stage or branch ids contain the separator |
| Identifiers.Formats | hi_agent/runner.py:945-949 | the two reference formats on an example |
| StageExecution.RunExecutor.constructor | hi_agent/runner.py:495-509 | an executor built from a context takes over counters by value, dictionaries by reference, and not the context's run id |
| StageExecution.RunExecutor.SyncToContext | hi_agent/runner.py:792-805 | after a sync the context shows all restorable state and shares no dictionary with the executor |
| StageExecution.RunExecutor.CheckBudgetExceeded | hi_agent/runner_lifecycle.py:92-121 | no code exactly when the three limits admit one more action; otherwise the execution code exactly when the action budget is spent |
| StageExecution.RunExecutor.MakeDecisionRef | hi_agent/runner.py:945-949 | the reference carries the old counter, which then advances by one |
| StageExecution.RunExecutor.MakeGateRef | hi_agent/runner.py:1368-1372 | the reference carries the old counter, which then advances by one |
| StageExecution.StageExecutor.AppendTrace | hi_agent/runner_stage.py:91-109 | steps are appended to the stage's trace, which is created on first access |
| StageExecution.StageExecutor.PersistTrace | hi_agent/runner_stage.py:111-131 | the trace is dropped from the side channel and saved when there is one, a store, and the save works |
| StageExecution.StageExecutor.TryAction | hi_agent/runner_stage.py:498-674 | the `try` body's new state, artifacts and raise, for every answer and every fault point, equal the specification of one attempt |
| StageExecution.StageExecutor.FinishAction | hi_agent/runner_stage.py:675-713 | the `finally` block opens gates, advances the action counter and raises as specified |
| StageExecution.StageExecutor.RunProposals | hi_agent/runner_stage.py:413-713 | the loop over proposals, stopped by a budget, by a raise, or by a raise while the exhaustion is recorded, equals the recursive specification of the loop |
| StageExecution.StageExecutor.FinishStage | hi_agent/runner_stage.py:716-817 | the swallowing post-execute block, the dead-end exit and the completed exit equal their specification, and the context is as specified |
| StageExecution.StageExecutor.SkipStage | hi_agent/runner_stage.py:232-262 | the budget-skip exit marks the stage completed before it builds its summary, and does not sync |
| StageExecution.StageExecutor.ExecuteStage | hi_agent/runner_stage.py:198-818 | a stage call on shared mutable objects ends in exactly the specified executor, kernel, trace and context state, for every fault |
| ActionProperties.ActionEffect | hi_agent/runner_stage.py:438-713 | any action, raising anywhere or not: whether it raises, the exact counters, DAG node state and kernel events it leaves |
| ActionProperties.CleanAction | hi_agent/runner_stage.py:515-626 | an action that does not raise passes its artifacts on, records what it was handed, and its node succeeds exactly when it was accepted |
| ActionProperties.ExactConsumption | hi_agent/runner_stage.py:416-443 | a loop executes exactly the first n proposals, n the minimum of what three limits admit, or stops at the first raise among them; one exhaustion event exactly when proposals are left over, with the execution code exactly when the action budget is spent, and a raise there exactly when recording it raises |
| CleanStages.CleanLoop | hi_agent/runner_stage.py:413-443 | a loop that does not raise advances all counters by the number executed, hands on the ordered artifacts, and records the exhaustion code determined by the starting state |
| CleanStages.NormalReturn | hi_agent/runner_stage.py:413-818 | a normal return executed the admitted prefix, added one DAG key per action, put all artifacts in order into the summary, flushed all reasoning steps once, and is "failed" exactly when a verdict went through or nothing ever tried for the stage can succeed |
| CleanStages.StageKeys | hi_agent/runner_stage.py:675-713 | a stage call keeps all DAG keys older than the action counter exactly when it does not end at an action that opened its node uncounted |
| CleanStages.NormalReturnInRun | hi_agent/runner_stage.py:413-818 | from a new executor, after any schedule in which every opened node was counted, every normal return means all that |
| CleanStages.TraceWrittenExact | hi_agent/runner_stage.py:111-131 | a normal return writes a reasoning trace exactly when there is a store, saving works, and an executed action or an earlier raised call of the stage accessed the trace |
| CleanStages.QuietStageWritesNothing | hi_agent/runner_stage.py:111-131 | a stage in which nobody accessed its trace returns normally and writes nothing, against the documentation |
| GateLogs.ActionGates | hi_agent/execution/gate_coordinator.py:351-443 | any action, raising or not: which gates the kernel hears of, under which references, and how many gate numbers it takes |
| GateLogs.RunGates | hi_agent/execution/gate_coordinator.py:351-443 | the gates that a run of actions opens, in order and numbered one after the other, and the gate numbers it takes |
| RunOutcomes.LoopAgreement | hi_agent/runner_stage.py:413-713 | when the proposal loop ends normally, every branch it opened got exactly one terminal mark; with distinct branch ids node, mark and the branch's own bound decision agree; action i got exactly the artifacts of actions 0 to i-1 and the loop hands on all |
| RunOutcomes.StageAgreement | hi_agent/runner_stage.py:198-818 | the same for a whole stage call that returns normally, with all artifacts in the summary |
| RunOutcomes.StageElsewhere | hi_agent/runner_stage.py:198-818 | a stage call, whatever raises in it, leaves mark, summary and trace of every other stage alone |
| RunOutcomes.StageSummaryExact | hi_agent/runner_stage.py:762-809 | every normal return writes exactly one summary: outcome "failed" on the failed exits, the compressor's outcome on completion, with all artifacts of the executed actions; no other summary changes |
| RunOutcomes.StageToldAlways | hi_agent/runner_stage.py:212-214 | any stage call, raising or not: exactly what the kernel hears of the stage, in order |
| RunOutcomes.StageToldExact | hi_agent/runner_stage.py:198-818 | over a normal return the kernel hears opened, ACTIVE, FAILED once for a swallowed verdict, and one final mark that is FAILED exactly on a failed return |
| RunOutcomes.SkippedSummary | hi_agent/runner_stage.py:232-262 | the skip's event, mark, summary and trace, returning or not |
| RunOutcomes.RunAgreement | hi_agent/runner_stage.py:198-818 | over every schedule with retries and raises, at the end each stage whose last call returned normally still has the summary this exit called for, a kernel mark agreeing with what it returned, and no trace left |
| RunOutcomes.UncalledKept | hi_agent/runner_stage.py:198-818 | over every schedule a stage that no call names keeps its mark, summary and trace |
| BranchAgreement.ActionInFull | hi_agent/runner_stage.py:438-674 | any action, raising anywhere or not: which branch events, failure reason, task view and decision the kernel hears of |
| BranchAgreement.ActionNode | hi_agent/runner_stage.py:481-576 | in which state any action, raising or not, leaves its node, and that no other node changes |
| BranchAgreement.RunLogs | hi_agent/runner_stage.py:438-674 | branches opened, branches ended and proposals executed are the same sequence; branches succeeded are the accepted ones, each with one consecutively numbered decision |
| BranchAgreement.RunCounters | hi_agent/runner_stage.py:440-444 | over a run of actions the counters, decisions, events and artifacts advance by exactly what was executed |
| BranchAgreement.DispatchAt | hi_agent/runner_stage.py:518-528 | action i is handed exactly the ordered concatenation of the artifacts of actions 0 to i-1 |
| BranchAgreement.RunNodes | hi_agent/runner_stage.py:481-576 | every executed action owns its own DAG node, succeeded exactly when accepted; other nodes stay |
| BranchAgreement.BranchNodeDecision | hi_agent/runner_stage.py:563-655 | over a run of actions with distinct branch ids a node is succeeded exactly when its branch has its one SUCCEEDED mark and exactly one decision reference of that very branch, bound to that action's own task view; otherwise the branch has neither |
| StageOutcome.AfterLoopAgrees | hi_agent/runner_stage.py:716-817 | after the loop, returned value, last kernel mark, summary and sync agree, also when verdict handling raised after its FAILED mark and was swallowed |
| StageOutcome.FinalStateAgreement | hi_agent/runner_stage.py:198-818 | on every normal return "failed" holds iff the last mark is FAILED and the summary says failed, None iff the last mark is COMPLETED, a summary exists and no trace is left; it synced iff it was not the skip; a skip whose summary cannot be built always raises |
| StageOutcome.ShippedSkip | hi_agent/runner_stage.py:250-262 | with the summary dataclass as it is, the budget skip raises behind its COMPLETED mark: no new summary, no sync, the reasoning trace left in place |
| DeadEnds.RunAddsKeys | hi_agent/runner_stage.py:481-493 | actions that do not raise add exactly one new DAG key each and leave all older nodes alone |
| DeadEnds.DeadEndAfter | hi_agent/trajectory/dead_end.py:8-27 | after an attempt the stage is a dead end exactly when nothing was accepted now and every earlier node of the stage is failed or pruned, so one node left open by a raise hides all later dead ends |
| DeadEnds.ActionKeys | hi_agent/runner_stage.py:675-713 | an action, raising or not, keeps all keys older than the action counter exactly when it is counted if it opened its node |
| DeadEnds.LoopKeys | hi_agent/runner_stage.py:413-713 | a loop, whatever raises in it, keeps all keys older than the action counter exactly when it does not end at an opened, uncounted action |
| DeadEnds.UncountedActionReusesKey | hi_agent/runner_stage.py:675-713 | an action whose `finally` raises before the counter leaves its key to be used again |
| Freshness.StageFresh | hi_agent/runner.py:945-949 | no stage call, raising or not, ever gives the kernel a decision or gate reference twice |
| Freshness.FreshDistinct | hi_agent/runner.py:1368-1372 | fresh references differ at any two places of the kernel log, also a decision's from a gate's |
| RunSessions.StageLimits | hi_agent/runner_stage.py:416-444 | one stage call keeps the limits, the equality of run total and stage counts, and the kernel's branch accounting, each on its own; the total passes the run cap only if it had before, and stays when the action budget is spent |
| RunSessions.WholeRunSafety | hi_agent/runner_stage.py:418-444 | every schedule of stage calls, retries and raises keeps all three limits, the sum of counts and branch accounting, and all references in the kernel log stay distinct; nothing raising keeps the gap between branches and actions |
| RunSessions.FreshRunSafety | hi_agent/runner_lifecycle.py:107-121 | from a new executor actions never exceed branches, are equal when nothing raised, and the kernel opens at most the run cap |
| Handoff.StageSame | hi_agent/runner_stage.py:198-818 | a stage call's result, new state and kernel events depend on the restorable state and the kernel only |
| Handoff.SyncPoint | hi_agent/runner_stage.py:798-815 | every normal return except the skip leaves a synced context and ends the sharing of dictionaries; nothing else ends it |
| Handoff.ContextKeepsId | hi_agent/runner.py:792-805 | no schedule changes the run id that the context carries |
| Handoff.HandoffTransparent | hi_agent/runner.py:497-509 | splitting a schedule at a sync point and continuing on a new executor gives the same DAG, summaries, counters and kernel log |
| Handoff.SkipLosesSummary | hi_agent/runner_stage.py:250-262 | were the skip's summary buildable, its return would be no sync point: the new executor would lack the skipped stage's summary |
| Handoff.ShippedSkipUnsynced | hi_agent/runner_stage.py:250-262 | the shipped skip leaves the context untouched behind its COMPLETED mark; a synced session stays synced exactly when the stage was the current one already |
| Handoff.LimitsAcrossHandoffs | hi_agent/runner.py:497-509 | the limits hold in every schedule with hand-offs at any moment, synced or not |
| Handoff.HandoffConservedExact | hi_agent/runner.py:497-509 | a hand-off keeps run total and stage counts consistent exactly when the dictionaries are no longer shared or no branch was counted since |
| Handoff.RaiseTearsContext | hi_agent/runner.py:495-508 | a raise before the first sync leaves shared counts ahead of the context's own total |
| RunGuards.TerminatedAbsorbs | hi_agent/runner.py:1576-1583 | a terminated run never changes again and answers "failed", also with a gate pending |
| RunGuards.GateAbsorbs | hi_agent/runner.py:1584-1586 | while the pending gate is unresolved nothing runs, whatever other gates are registered or answered, and a call raises for the gate then pending unless the run was terminated |
| RunGuards.DeadlineAbsorbs | hi_agent/runner.py:1587-1607 | after the deadline nothing runs, and a call that meets no pending gate answers "failed" |
| RunGuards.CancelledAbsorbs | hi_agent/runner.py:1608-1610 | once the run is cancelled nothing runs, whatever gates come and go; a cancelled call raises unless the run was terminated, or no gate is pending and the deadline has come |
| RunGuards.CallExact | hi_agent/runner.py:1576-1610 | a call is the stage call itself exactly when the run is not terminated, no gate is pending, the deadline has not come and nobody cancelled; otherwise nothing changes, and which of "failed" and an exception comes out |
| RunGuards.GateExact | hi_agent/execution/gate_coordinator.py:55-136 | after a registration the gate stays pending until a decision names it; any backtrack decision ends the run |
| RunGuards.GuardedRunSafety | hi_agent/runner.py:1564-1610 | limits, conservation and freshness hold for every interleaving of guarded calls and gate events |
| RunGuards.HandoffExact | hi_agent/runner.py:497-509 | a hand-off is transparent for every continuation iff the context is synced, the run id is the same, and the run was neither terminated nor waiting for a gate |
| GuardedExecution.RunDriver.ExecuteStage | hi_agent/runner.py:1564-1610 | the guards in order, then the stage; state and returned value as specified |
| GuardedExecution.RunDriver.Resume | hi_agent/execution/gate_coordinator.py:87-136 | a decision clears the slot only when it names the pending gate; backtrack terminates the run |
| Checkpoints.RestoreGate | hi_agent/runner.py:1949-1963 | the reverse scan that stops at the last gate event finds what replaying all events from the front through one slot leaves in it |
| Checkpoints.RestoredGateExact | hi_agent/runner.py:1949-1963 | the restored gate equals the live one iff the last gate event is not a decision about another gate than the pending one |
| Checkpoints.EventsTellFlags | hi_agent/execution/gate_coordinator.py:55-136 | the session events of any run determine its pending gate and whether it was terminated |
| Checkpoints.ResumedGuardExact | hi_agent/runner.py:1862-1963 | over every continuation a resumed run is guarded like the live one iff there was no backtrack, no stray decision last, and no deadline at all |
| ResumeExecution.HandOver | hi_agent/runner.py:495-509 | the executor built from a context starts from exactly the restored state, with no flag set and side channels of its own |
| ResumeExecution.ResumeFromCheckpoint | hi_agent/runner.py:1862-1963 | the resumed executor starts from exactly the checkpoint's restored state, under a contract without deadline and action budget, waiting for the gate that the scan finds |
| ResumedRuns.ResumedExact | hi_agent/runner.py:1897-1929 | current stage, action and branch counter are the checkpoint's; a stage has a summary exactly when the checkpoint has one that is not automatic, with its outcome; everything else starts from nothing |
| ResumedRuns.ResumedSummariesKept | hi_agent/runner.py:1919-1929 | over every schedule after a resume a stage that no call names keeps exactly the summary the checkpoint gave it |
| ShippedCalls.ReceivablePlain | hi_agent/execution/gate_coordinator.py:351-443 | a receivable call opens gates of the four known types only |
| ShippedCalls.RunShipped | hi_agent/runtime_adapter/kernel_facade_adapter.py:296-310 | with identifiers that the adapter accepts and gates of the known types, every decision and gate in the log is one of the run's own, whatever raises |
| ResumedRuns.ResumeReissuesDecision | hi_agent/runner.py:1897-1902 | every decision reference of the run, with any counter, is issued by some receivable schedule after a checkpoint resume |
| ResumedRuns.ResumeReissuesGate | hi_agent/runner.py:1897-1902 | every gate reference of the run, of each of the four types and with any counter, is issued by some receivable schedule after a checkpoint resume |
| ResumedRuns.ResumedFreshExact | hi_agent/runner.py:1897-1902 | over all limits and all schedules after a checkpoint resume the references in the kernel log stay distinct iff none was issued before, and over receivable schedules without an action budget too |
| ResumedRuns.ResumedRunExact | hi_agent/runner.py:1862-1902 | the same for the log of every run from a new executor, whatever raised in it |
| ResumedRuns.ResumedBranchesExact | hi_agent/runner.py:1863-1902 | under the rebuilt contract, which has no action budget, the kernel opens over all schedules after a resume at most what it had opened before plus what the branch limits admit from zero; a receivable schedule in which nothing raises attains that; and so, when a stage may open a branch at all, the run cap bounds the branches iff none was opened before |
| ResumedRuns.ResumedActionsExact | hi_agent/runner.py:1863-1872 | after a resume the actions stay within a budget in every schedule iff those counted before and what the branch limits admit from zero fit into it together |
| SubRuns.DeliveredAtMostOnce | hi_agent/runner.py:2128-2276 | over every interleaving an id is reported successful at most once, and only with a produced delegation result of status "completed" |
| SubRuns.FailureRecordNeverDelivered | hi_agent/runner.py:152-173 | the record that the callback stores for a failed or cancelled task reaches no caller: such an id yields exceptions or the unknown-handle answer |
| SubRuns.FailedAwaits | hi_agent/runner.py:2140-2200 | three awaits of a failed sub-run report a missing attribute, then the task's exception iff it is no RuntimeError or names await_subrun and otherwise a missing key, then an unknown handle |
| SubRuns.FailedReport | hi_agent/runner.py:2155-2200 | before the callback ran, waiting reports the task's exception, and finding the task done in a loop reports a missing key iff the exception is a RuntimeError that does not name await_subrun |
| SubRuns.FinishedIsDelivered | hi_agent/runner.py:2155-2269 | a finished, uncollected sub-run is delivered as converted by each way of awaiting |
| SubRuns.SyncDelivered | hi_agent/runner.py:2141-2155 | a sub-run dispatched outside a loop is delivered by the first await of any kind: success iff "completed", summary or else raw output, error and gate id as given |
| SubRuns.AsyncPending | hi_agent/runner.py:2105-2114 | a sub-run dispatched in a loop is pending at once, and an await that finds it running changes nothing |
| SubRuns.AsyncDelivered | hi_agent/runner.py:2155-2269 | from dispatch on, its result is delivered as given once it ended, whether the await began before or after and whether the callback ran |
| SubRuns.NothingToCollect | hi_agent/runner.py:2202-2214 | an await with nothing to collect, and every await after finalization, answers a failure naming the identifier and changes nothing else |
| SubRuns.CallbackExact | hi_agent/runner.py:157-171 | what the callback stores for a failed, a cancelled and a finished task |
| SubRuns.RecordRead | hi_agent/runner.py:2141-2155 | reading a stored record that is no delegation result raises, except for a pending gate |
| SubRuns.EndExact | hi_agent/runner.py:2111-2113 | a task ends once, with its callback scheduled; after a failure the callback leaves its record |
| SubRuns.SubRunTable.Dispatch | hi_agent/runner.py:2101-2126 | inside a loop a pending task, otherwise the collected result |
| SubRuns.SubRunTable.OnDone | hi_agent/runner.py:157-171 | the callback stores a failure record for failed and cancelled tasks only |
| SubRuns.SubRunTable.AwaitSubRun | hi_agent/runner.py:2128-2214 | collected result, done future, blocking wait, still-running error or unknown handle, with the dictionaries updated accordingly |
| SubRuns.SubRunTable.AwaitSubRunAsync | hi_agent/runner.py:2216-2276 | collected result, suspension on the future, or unknown handle |
| Blocks.Parse | scripts/check_gate_strictness.py:70-86 | the accumulate-and-flush loop cuts all lines from the first header on into blocks with exactly one header each, losing nothing |
| Blocks.BlocksUnique | scripts/check_gate_strictness.py:70-86 | there is only one such cut |
| GateStrictness.CheckFile | scripts/check_gate_strictness.py:89-139 | exactly the unexcused violations of every step, each once, in step order |
| GateStrictness.IssueExact | scripts/check_gate_strictness.py:99-134 | the two issues of a step in terms of its lines |
| GateStrictness.FirstLines | scripts/check_gate_strictness.py:94-107 | the first annotation and the first name count |
| GateStrictness.IssuesGrow | scripts/check_gate_strictness.py:105-116 | a later wave only adds issues, and adds exactly those of steps whose annotation expires in between |
| GateStrictness.WaveZeroExcusesAnnotated | scripts/check_gate_strictness.py:47-52 | at wave 0, used for an unreadable wave file, the issues are exactly those of weakening steps without a not_applicable comment and without an annotation for a positive wave |
| GateStrictness.NoneExemptExact | scripts/check_gate_strictness.py:105-116 | no annotation is exempt at a wave iff none on a weakening step targets a later wave |
| GateStrictness.WaveZeroExempts | scripts/check_gate_strictness.py:47-52 | a step that is advisory until wave 40 is exempt at wave 0, against the comment |
| Firsts.DistinctMeaning | scripts/check_clean_env.py:165-171 | removing duplicates keeps every value once, in order of first appearance |
| ReleaseScore.LoadScoreCaps | scripts/build_release_manifest.py:345-365 | the single pass that fills one record and flushes it at the next header and at the end equals cutting the lines into blocks and folding each of them |
| ReleaseScore.FoldMeaning | scripts/build_release_manifest.py:345-362 | a rule has its header's condition and, per field, the value of the last line of that kind; without such a line the field is absent |
| ReleaseScore.ComputeCap | scripts/build_release_manifest.py:791-815 | the rule loop computes the specified lowest cap and factor list |
| ReleaseScore.LowestCap | scripts/build_release_manifest.py:794-815 | the cap is the minimum over in-scope matching rules and is attained by one of them; no such rule, no cap |
| ReleaseScore.FactorsMeaning | scripts/build_release_manifest.py:801-805 | factors are exactly the texts of firing rules, duplicate-free, in first-match order |
| ReleaseScore.ScoreMonotone | scripts/build_release_manifest.py:794-815 | more rules or more matching conditions never raise a tier's score |
| ReleaseScore.RawRange | scripts/build_release_manifest.py:320-327 | with weights summing to 100 and base scores in 0..100 the raw score is in 0..100 |
| ScoreMeaning.RawExact | scripts/build_release_manifest.py:320-327 | the raw score is additive, one dimension counting weight times base score in hundredths |
| ScoreMeaning.MatchesExact | scripts/build_release_manifest.py:444-690 | each condition matches exactly when it holds of gates and evidence, the architectural gates not counting for the engineering tier |
| ScoreMeaning.LookupMeaning | scripts/build_release_manifest.py:431-437 | looking a gate up finds its entry, and nothing when there is none |
| ScoreMeaning.TextNamesGates | scripts/build_release_manifest.py:478-519 | the texts that list gates name every gate that counts |
| ScoreMeaning.OwnName | scripts/build_release_manifest.py:444-690 | the factor text begins with the condition's own name, so the conditional score finds it |
| ReleaseScore.ArchNonInterference | scripts/build_release_manifest.py:71-74 | gate maps that differ only on architectural gates give the engineering tier the same cap, factors, verified and conditional scores |
| ReleaseScore.ComputeConditional | scripts/build_release_manifest.py:818-849 | the conditional score's two filters and nested loop equal their specification |
| ReleaseScore.ComputeScore | scripts/build_release_manifest.py:914-971 | all scores as specified; a missing rule table is an error |
| ScoreMeaning.ScorecardExact | scripts/build_release_manifest.py:926-971 | verified and 7x24 score are raw, lowered to the lowest cap among the rules that apply to their own tier; the conditional score is at most raw, and at least verified under the exact condition |
| ScoreMeaning.ConditionalExact | scripts/build_release_manifest.py:818-849 | raw when blockers are all there is, otherwise raw lowered to the lowest cap among the other rules found by name or label in a searched text |
| ScoreMeaning.SearchedExact | scripts/build_release_manifest.py:825-840 | the searched texts are those of the engineering rules that apply once staleness, expired entries and dirt are cleared |
| ScoreMeaning.ConditionalIgnoresBlockers | scripts/build_release_manifest.py:825-840 | staleness and expired allowlist entries never influence the conditional score |
| ScoreOrdering.SandwichExact | scripts/build_release_manifest.py:833-849 | the conditional score is at most raw, and at least verified iff only blocker texts are present or every rule hit by text alone is covered by raw or by a firing rule's cap |
| ScoreOrdering.LabelledSandwich | scripts/build_release_manifest.py:833-849 | with well-labelled rules the conditional score is the minimum of raw and the caps of firing non-blocker rules, so verified <= conditional <= raw |
| ScoreOrdering.UnlabelledBreaksSandwich | scripts/build_release_manifest.py:847 | a rule without a label that never fires can pull the conditional score below the verified one |
| CommitWalk.WalkGovInfraHistory | scripts/check_clean_env.py:95-124 | the loop computes the specified walk |
| CommitWalk.WalkShape | scripts/check_clean_env.py:95-124 | the walk is a prefix of the chosen-parent chain of at most the bound, all but its last commit governance-only |
| CommitWalk.WalkSteps | scripts/check_clean_env.py:95-130 | each next commit is the second parent at a merge and the only parent otherwise, the diff that classifies it is known, non-empty and governance-only; at most 50 commits |
| CommitWalk.WalkStops | scripts/check_clean_env.py:95-124 | below its bound the walk stops only at a functional, unknown or root commit |
| CommitWalk.PathExact | scripts/check_clean_env.py:39-55 | what a governance path is |
| CommitWalk.StackExact | scripts/check_clean_env.py:95-130 | a governance-only commit on top is prepended; the functional head stays iff the old walk was shorter than the bound |
| CommitWalk.MergeExact | scripts/check_clean_env.py:58-92 | a merge over a head whose own diff is functional is its own functional head and the branch head is not searched |
| CommitWalk.FindCandidates | scripts/check_clean_env.py:133-172 | the files of all walked commits and the head, each once, whatever the enumeration order |
| CommitWalk.StackKeepsCandidates | scripts/check_clean_env.py:133-172 | below the bound a governance-only commit on top keeps every evidence candidate |
| ContractFreeze.NormalizedUndoesCrlf | scripts/check_contract_freeze.py:44-46 | newline normalisation undoes LF to CRLF conversion on every byte string |
| ContractFreeze.NotIdempotentExact | scripts/check_contract_freeze.py:44-46 | normalising twice differs iff the bytes contain CR CR LF |
| ContractFreeze.FreezeGate.DoSnapshot | scripts/check_contract_freeze.py:68-107 | one digest per listed file, and the frozen head overwritten where it is assigned |
| ContractFreeze.FreezeGate.DoEnforce | scripts/check_contract_freeze.py:123-210 | all verdicts in order, violations per recorded file |
| ContractFreeze.VerdictExact | scripts/check_contract_freeze.py:123-210 | which verdict comes out, exactly: no directory, no snapshot, two different known heads, then the files |
| ContractFreeze.ViolationsExact | scripts/check_contract_freeze.py:165-178 | violations file by file in recorded order: deleted when missing, modified when the digest differs |
| ContractFreeze.PassExact | scripts/check_contract_freeze.py:146-210 | with an injective hash enforcement passes iff every recorded file is present with unchanged normalised bytes |
| ContractFreeze.CrlfCheckoutExact | scripts/check_contract_freeze.py:83-91 | a CRLF checkout of a snapshotted tree passes iff the recorded files had no CR LF |
| Postmortem.ClassifyStages | hi_agent/runner_lifecycle.py:180-193 | completed and failed lists partition the summary keys in order |
| Postmortem.FailedExact | hi_agent/runner_lifecycle.py:182-193 | the kernel's final mark decides, and without one the summary's outcome |
| Postmortem.CountBranches | hi_agent/runner_lifecycle.py:195-200 | explored counts all nodes, pruned the cut ones, pruned <= explored |
| Postmortem.PrunedExact | hi_agent/runner_lifecycle.py:195-200 | pruned counts exactly the pruned nodes |
| Postmortem.FailureCodes | hi_agent/runner_lifecycle.py:202-217 | the collector's codes, otherwise the distinct recorded ones in first-seen order |
| Postmortem.CodesExact | hi_agent/runner_lifecycle.py:212-217 | the recorded codes are the non-empty ones, in order |
| Postmortem.Efficiency | hi_agent/runner_lifecycle.py:227-235 | the ratio is in 0..1 without needing its minimum with one |

## Left out

- Logging, observability hooks, event bus, replay recorder, metrics, cost records, skill usage, knowledge retrieval, compression and tool-result truncation: they do not reach the modelled state. Only the run events that the claims speak about are recorded.
- `skill_ids_used`, which the context also stores: it is filled by skill recording, which is left out.
- The conditions under which gates open, recovery, restart policy, acceptance and routing decide: oracles.
- Node scores, back-propagation and the contents of summaries other than outcome and artifacts.
- The session store behind a checkpoint and stage traversal: schedules are arbitrary, the checkpoint's values are inputs, and no RunContext is passed along to the resumed executor.
- A capability filter that changes a proposal's branch id: the shipped filter never does.
- Sub-run ids are fresh; a collision of the random eight-digit suffix is excluded. The missing-manager error of `dispatch_subrun`, and exceptions of the synchronous dispatch, change nothing and have no step.
- Rounding of scores to two decimals: scores are exact reals.
- The weight parser `_load_weights`: it is the same block loop as the rule parser.
- Conditions that read the repository or evidence files: their factor texts are inputs, per condition and per whether architectural evidence is excluded from the scan.
- Receivable calls: stripping knows ASCII white space only, the adapter hands stripped identifiers on where the model keeps them, and a custom watchdog is not covered; only the schedules that show what may happen depend on this.
- Regular expressions: workflow and rule lines are taken as the class of patterns they match, so a pattern spread over two lines is not seen.
- Evidence validation, candidate globbing by shortened ids, JSON reading and writing, and command-line handling of the scripts.
- Two executors working on one RunContext at the same time, and the reasoning traces of a raised stage, which stay behind in the old executor's side channel at a hand-off.
- SubRuns.SubRunTable.Dispatch: requires an unused id, because two dispatches never draw the same one here.
- CommitWalk.FindCandidates: states the set of files and that none repeats, not their order, because the source enumerates an unordered set.
