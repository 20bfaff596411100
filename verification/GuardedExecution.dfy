/** The run executor's own stage entry point and its gate methods, as methods on objects. */
module GuardedExecution {
  import opened Options
  import opened StageSpec
  import opened StageExecution
  import opened RunSessions
  import opened RunGuards

  class RunDriver {
    const ex: RunExecutor
    const stages: StageExecutor
    const deadline: Option<int>
    var terminated: bool
    var gatePending: Option<string>

    constructor (e: RunExecutor, s: StageExecutor, d: Option<int>)
      ensures ex == e && stages == s && deadline == d && !terminated && gatePending == None
    {
      ex, stages, deadline, terminated, gatePending := e, s, d, false, None;
    }

    function State(): Run
      reads this, ex, ex.dag, ex.summaries, ex.counts, ex.context, stages, stages.kernel
      reads if ex.context == null then {} else {ex.context.dag, ex.context.summaries, ex.context.counts}
    {
      Run(Session(stages.WorldOf(ex), ex.ContextView(), ex.Shared()), terminated, gatePending)
    }

    /** Guards first, in the source's order, then the stage executor. */
    method ExecuteStage(call: Call, now: int, cancelled: bool) returns (r: Returned)
      requires ex.Valid()
      modifies stages, ex, ex.dag, ex.summaries, ex.counts, ex.context, stages.kernel
      ensures ex.Valid()
      ensures State() == RunOp(stages.cfg, deadline, old(State()), StageCall(call, now, cancelled))
      ensures r == GuardedReturn(stages.cfg, deadline, old(State()), StageCall(call, now, cancelled))
    {
      if terminated { return FailedStage; }
      if gatePending.Some? { return Raised; }
      if deadline.Some? && now >= deadline.value { return FailedStage; }
      if cancelled { return Raised; }
      ghost var synced;
      r, synced := stages.ExecuteStage(ex, call.stage, call.oracle);
    }

    method RegisterGate(id: string)
      modifies this`gatePending
      ensures State() == RunOp(stages.cfg, deadline, old(State()), Op.RegisterGate(id))
    {
      gatePending := Some(id);
    }

    /** A decision clears the slot only when it names the pending gate. */
    method Resume(id: string, decision: string)
      modifies this`gatePending, this`terminated
      ensures State() == RunOp(stages.cfg, deadline, old(State()), ResumeGate(id, decision == "backtrack"))
    {
      if gatePending == Some(id) { gatePending := None; }
      if decision == "backtrack" { terminated := true; }
    }
  }
}
