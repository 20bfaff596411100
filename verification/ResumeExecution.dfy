/** Building a new executor for a run: from its RunContext, and from a checkpoint file. */
module ResumeExecution {
  import opened Options
  import opened RunTypes
  import opened StageExecution
  import opened RunGuards
  import opened GuardedExecution
  import opened Checkpoints
  import opened ResumedRuns
  import opened Strings

  /** A new executor on the context's dictionaries, with side channels of its own and no flag
      set, told about the run by its id. */
  method HandOver(ctx: RunContext, run: string, kernel: Kernel, cfg: Config, deadline: Option<int>)
    returns (driver: RunDriver)
    ensures fresh(driver) && fresh(driver.ex) && fresh(driver.stages) && driver.ex.Valid()
    ensures driver.stages.kernel == kernel && driver.stages.cfg == cfg && driver.deadline == deadline
    ensures driver.ex.context == ctx
    ensures forall r: Run :: r.s.ctx == Some(ctx.View()) && r.s.w.kernel == kernel.log ==>
      driver.State() == RestoredRun(r, run)
  {
    var ex := new RunExecutor(run, ctx);
    var stages := new StageExecutor(kernel, cfg);
    driver := new RunDriver(ex, stages, deadline);
  }

  /** Fills in the summaries one by one, automatic ones left out. */
  method RestoreSummaries(table: SummaryTable, l1: map<string, Summary>)
    requires table.rows == map[]
    modifies table
    ensures table.rows == RestoredSummaries(l1)
  {
    var todo := l1.Keys;
    while todo != {}
      invariant todo <= l1.Keys
      invariant table.rows == map k | k in l1 && k !in todo && !EndsWith(k, "_auto") :: Summary(l1[k].outcome, [])
      decreases |todo|
    {
      var stage :| stage in todo;
      todo := todo - {stage};
      if EndsWith(stage, "_auto") { continue; }
      table.rows := table.rows[stage := Summary(l1[stage].outcome, [])];
    }
  }

  /** The executor of the resumed run. */
  method RestoreExecutor(cp: Checkpoint) returns (ex: RunExecutor)
    ensures fresh(ex) && fresh(ex.dag) && fresh(ex.summaries) && fresh(ex.counts)
    ensures ex.context == null && ex.Valid() && ex.events == [] && ex.Snapshot() == ResumedExec(cp)
  {
    ex := new RunExecutor(cp.runId, null);
    ex.actionSeq, ex.branchSeq, ex.currentStage := cp.actionSeq, cp.branchSeq, cp.currentStage;
    RestoreSummaries(ex.summaries, cp.l1);
  }

  /** resume_from_checkpoint up to the point where stages run again: the contract is rebuilt
      without deadline and action budget, counters, stage and summaries are restored, and the
      last gate event decides about the pending gate. */
  method ResumeFromCheckpoint(cp: Checkpoint, events: seq<SessionEvent>, kernel: Kernel, cfg: Config)
    returns (driver: RunDriver)
    ensures fresh(driver) && fresh(driver.ex) && fresh(driver.stages) && driver.ex.Valid()
    ensures driver.stages.kernel == kernel && driver.stages.cfg == Rebuilt(cfg) && driver.deadline.None?
    ensures driver.State() == Run(Resumed(cp, kernel.log), false, Replayed(events))
  {
    hide ResumedExec, Threaded;
    var pending := RestoreGate(events);
    var ex := RestoreExecutor(cp);
    var stages := new StageExecutor(kernel, Rebuilt(cfg));
    driver := new RunDriver(ex, stages, None);
    driver.gatePending := pending;
  }
}
