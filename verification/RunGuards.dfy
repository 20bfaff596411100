/** The guards in front of every stage call, the human gates that feed them, and the hand-off
    with the guards taken into account. */
module RunGuards {
  import opened Options
  import opened RunTypes
  import opened StageSpec
  import opened RunSessions
  import opened Handoff

  /** A session with the two flags of the executor that no RunContext stores. */
  datatype Run = Run(s: Session, terminated: bool, gate: Option<string>)

  /** Environment steps between stage calls, and guarded stage calls with the clock reading
      and the cancellation token they meet. */
  datatype Op =
    | StageCall(call: Call, now: int, cancelled: bool)
    | RegisterGate(id: string)
    | ResumeGate(id: string, backtrack: bool)

  datatype Guard = TerminatedFailed | GatePending(id: string) | DeadlineFailed | Cancelled | Admitted

  /** The first guard that stops a call. An absent or malformed deadline is None. */
  function GuardOf(deadline: Option<int>, r: Run, now: int, cancelled: bool): Guard {
    if r.terminated then TerminatedFailed
    else if r.gate.Some? then GatePending(r.gate.value)
    else if deadline.Some? && now >= deadline.value then DeadlineFailed
    else if cancelled then Cancelled
    else Admitted
  }

  /** What a guarded call hands back: "failed" from the first and third guard, an exception
      from the second and fourth. */
  function GuardedReturn(cfg: Config, deadline: Option<int>, r: Run, op: Op): Returned
    requires op.StageCall?
  {
    match GuardOf(deadline, r, op.now, op.cancelled)
    case TerminatedFailed => FailedStage
    case GatePending(_) => Raised
    case DeadlineFailed => FailedStage
    case Cancelled => Raised
    case Admitted => StageStep(cfg, r.s.w, op.call.stage, op.call.oracle).ret
  }

  function RunOp(cfg: Config, deadline: Option<int>, r: Run, op: Op): Run {
    match op
    case StageCall(call, now, cancelled) =>
      if GuardOf(deadline, r, now, cancelled).Admitted? then r.(s := SessionStep(cfg, r.s, call)) else r
    case RegisterGate(id) => r.(gate := Some(id))
    case ResumeGate(id, backtrack) =>
      Run(r.s, r.terminated || backtrack, if r.gate == Some(id) then None else r.gate)
  }

  function RunOps(cfg: Config, deadline: Option<int>, r: Run, ops: seq<Op>): Run
    decreases |ops|
  {
    if ops == [] then r else RunOps(cfg, deadline, RunOp(cfg, deadline, r, ops[0]), ops[1..])
  }

  // ----- Absorption -----

  /** A terminated run stays as it is for every further sequence of calls and gate events,
      and every call answers "failed", also while a gate is pending. */
  lemma {:induction false} TerminatedAbsorbs(cfg: Config, deadline: Option<int>, r: Run, ops: seq<Op>)
    requires r.terminated
    ensures RunOps(cfg, deadline, r, ops).s == r.s && RunOps(cfg, deadline, r, ops).terminated
    ensures forall op: Op :: op.StageCall? ==> GuardedReturn(cfg, deadline, r, op) == FailedStage
    decreases |ops|
  {
    hide SessionStep, StageStep;
    if ops != [] { TerminatedAbsorbs(cfg, deadline, RunOp(cfg, deadline, r, ops[0]), ops[1..]); }
  }

  /** No resume in `ops` names the gate that is pending when it comes. */
  ghost predicate NeverResolved(pending: string, ops: seq<Op>)
    decreases |ops|
  {
    ops == [] ||
    (match ops[0]
     case StageCall(_, _, _) => NeverResolved(pending, ops[1..])
     case RegisterGate(id) => NeverResolved(id, ops[1..])
     case ResumeGate(id, _) => id != pending && NeverResolved(pending, ops[1..]))
  }

  /** While the pending gate is not resolved, nothing runs, however many other gates are
      registered or answered; a call raises for the gate then pending, also past the
      deadline, unless a backtrack decision ended the run. */
  lemma {:induction false} GateAbsorbs(cfg: Config, deadline: Option<int>, r: Run, ops: seq<Op>)
    requires r.gate.Some? && NeverResolved(r.gate.value, ops)
    ensures var q := RunOps(cfg, deadline, r, ops);
      && q.s == r.s && q.gate.Some?
      && forall now, cancelled :: GuardOf(deadline, q, now, cancelled) ==
           if q.terminated then TerminatedFailed else GatePending(q.gate.value)
    decreases |ops|
  {
    hide SessionStep;
    if ops != [] { GateAbsorbs(cfg, deadline, RunOp(cfg, deadline, r, ops[0]), ops[1..]); }
  }

  ghost predicate ClockAtLeast(t: int, ops: seq<Op>) {
    forall i :: 0 <= i < |ops| && ops[i].StageCall? ==> t <= ops[i].now
  }

  /** Once the clock has reached the deadline nothing runs any more; a call that neither ends
      in a terminated run nor at a gate answers "failed", cancelled or not. */
  lemma {:induction false} DeadlineAbsorbs(cfg: Config, deadline: Option<int>, r: Run, ops: seq<Op>)
    requires deadline.Some? && ClockAtLeast(deadline.value, ops)
    ensures var q := RunOps(cfg, deadline, r, ops);
      && q.s == r.s
      && forall op: Op :: op.StageCall? && op.now >= deadline.value && q.gate.None? ==>
           GuardedReturn(cfg, deadline, q, op) == FailedStage
    decreases |ops|
  {
    hide SessionStep;
    if ops != [] {
      assert ops[0].StageCall? ==> deadline.value <= ops[0].now;
      assert forall i :: 0 <= i < |ops[1..]| ==> ops[1..][i] == ops[i + 1];
      DeadlineAbsorbs(cfg, deadline, RunOp(cfg, deadline, r, ops[0]), ops[1..]);
    }
  }

  /** A call in which nothing stands in the way: the run goes on, no gate is pending, the clock
      is before the deadline and nobody cancelled. */
  predicate Unhindered(deadline: Option<int>, r: Run, now: int, cancelled: bool) {
    && !r.terminated && r.gate.None? && !cancelled && (deadline.None? || now < deadline.value)
  }

  /** The guards in full: an unhindered call is the stage call itself; any other one changes
      nothing and answers "failed" when the run was terminated, or when no gate is pending and
      the deadline has come, and raises otherwise. */
  lemma CallExact(cfg: Config, deadline: Option<int>, r: Run, call: Call, now: int, cancelled: bool)
    ensures var op := StageCall(call, now, cancelled);
      var ret := GuardedReturn(cfg, deadline, r, op);
      if Unhindered(deadline, r, now, cancelled) then
        && RunOp(cfg, deadline, r, op) == r.(s := SessionStep(cfg, r.s, call))
        && ret == StageStep(cfg, r.s.w, call.stage, call.oracle).ret
      else
        && RunOp(cfg, deadline, r, op) == r
        && ret == if r.terminated || (r.gate.None? && deadline.Some? && now >= deadline.value) then FailedStage
                  else Raised
  {
    hide SessionStep, StageStep;
  }

  ghost predicate AllCancelled(ops: seq<Op>) {
    forall i :: 0 <= i < |ops| && ops[i].StageCall? ==> ops[i].cancelled
  }

  /** Once the run is cancelled nothing runs any more, whatever gates are registered or
      answered; a cancelled call raises unless the run was terminated, or no gate is pending
      and the deadline has come. */
  lemma {:induction false} CancelledAbsorbs(cfg: Config, deadline: Option<int>, r: Run, ops: seq<Op>)
    requires AllCancelled(ops)
    ensures var q := RunOps(cfg, deadline, r, ops);
      && q.s == r.s
      && forall op: Op :: op.StageCall? && op.cancelled && !q.terminated
                          && (q.gate.Some? || deadline.None? || op.now < deadline.value) ==>
           GuardedReturn(cfg, deadline, q, op) == Raised
    decreases |ops|
  {
    hide SessionStep, StageStep;
    if ops != [] {
      assert ops[0].StageCall? ==> ops[0].cancelled;
      assert forall i :: 0 <= i < |ops[1..]| ==> ops[1..][i] == ops[i + 1];
      CancelledAbsorbs(cfg, deadline, RunOp(cfg, deadline, r, ops[0]), ops[1..]);
    }
  }

  /** What gate steps do, read off the whole past: the pending gate is the last registered one,
      unless a later decision named it; a backtrack decision ends the run. */
  lemma {:induction false} GateExact(cfg: Config, deadline: Option<int>, r: Run, id: string, later: seq<Op>)
    requires forall i :: 0 <= i < |later| ==> !later[i].RegisterGate?
    ensures var q := RunOps(cfg, deadline, RunOp(cfg, deadline, r, RegisterGate(id)), later);
      && q.gate == (if exists i :: 0 <= i < |later| && later[i].ResumeGate? && later[i].id == id
                    then None else Some(id))
      && (q.terminated <==>
            r.terminated || exists i :: 0 <= i < |later| && later[i].ResumeGate? && later[i].backtrack)
  {
    hide RunOps, RunOp;
    var r1 := RunOp(cfg, deadline, r, RegisterGate(id));
    assert r1.gate == Some(id) && r1.terminated == r.terminated by { Registered(cfg, deadline, r, id); }
    GateStays(cfg, deadline, r1, id, later);
  }

  lemma Registered(cfg: Config, deadline: Option<int>, r: Run, id: string)
    ensures RunOp(cfg, deadline, r, RegisterGate(id)) == Run(r.s, r.terminated, Some(id))
  {
  }

  lemma {:induction false} GateStays(cfg: Config, deadline: Option<int>, r: Run, id: string, ops: seq<Op>)
    requires r.gate == Some(id) || r.gate == None
    requires forall i :: 0 <= i < |ops| ==> !ops[i].RegisterGate?
    ensures var q := RunOps(cfg, deadline, r, ops);
      && q.gate == (if r.gate == None || exists i :: 0 <= i < |ops| && ops[i].ResumeGate? && ops[i].id == id
                    then None else Some(id))
      && (q.terminated <==> r.terminated || exists i :: 0 <= i < |ops| && ops[i].ResumeGate? && ops[i].backtrack)
    decreases |ops|
  {
    hide SessionStep;
    if ops != [] {
      var rest := ops[1..];
      assert ops == [ops[0]] + rest;
      assert forall i :: 0 <= i < |rest| ==> rest[i] == ops[i + 1];
      GateStays(cfg, deadline, RunOp(cfg, deadline, r, ops[0]), id, rest);
    }
  }

  /** Everything the guards admit keeps the run sound, whatever is interleaved. */
  lemma {:induction false} GuardedRunSafety(cfg: Config, deadline: Option<int>, r: Run, ops: seq<Op>)
    requires Sound(cfg, r.s.w)
    ensures Sound(cfg, RunOps(cfg, deadline, r, ops).s.w)
    decreases |ops|
  {
    hide StageStep, Sound;
    if ops != [] {
      if ops[0].StageCall? { StageSound(cfg, r.s.w, ops[0].call.stage, ops[0].call.oracle); }
      GuardedRunSafety(cfg, deadline, RunOp(cfg, deadline, r, ops[0]), ops[1..]);
    }
  }

  // ----- Hand-off -----

  /** A new executor starts with no flag set. */
  function RestoredRun(r: Run, run: string): Run
    requires r.s.ctx.Some?
  {
    Run(Restored(r.s, run), false, None)
  }

  lemma {:induction false} RunOpsSame(cfg: Config, deadline: Option<int>, r: Run, q: Run, ops: seq<Op>)
    requires Same(r.s.w, q.s.w) && r.terminated == q.terminated && r.gate == q.gate
    ensures Same(RunOps(cfg, deadline, r, ops).s.w, RunOps(cfg, deadline, q, ops).s.w)
    decreases |ops|
  {
    hide StageStep;
    if ops != [] {
      if ops[0].StageCall? { StageSame(cfg, r.s.w, q.s.w, ops[0].call.stage, ops[0].call.oracle); }
      RunOpsSame(cfg, deadline, RunOp(cfg, deadline, r, ops[0]), RunOp(cfg, deadline, q, ops[0]), ops[1..]);
    }
  }

  /** A stage call without proposals in which nothing raises: enough to tell a blocked run from
      a running one. */
  function Probe(deadline: Option<int>): Op {
    StageCall(Call("probe", StageOracle(OpeningOk, false, [], NoVerdict, ClosingOk, "", false)),
              if deadline.Some? then deadline.value - 1 else 0, false)
  }

  /** No continuation can tell the two runs apart by restorable state or kernel log. */
  ghost predicate Transparent(cfg: Config, deadline: Option<int>, q: Run, r: Run) {
    forall ops :: Same(RunOps(cfg, deadline, q, ops).s.w, RunOps(cfg, deadline, r, ops).s.w)
  }

  /** Hand-off through a RunContext is transparent for every continuation exactly when the
      context is synced, the new executor works under the same run id, and the old run
      was neither terminated nor waiting for a gate: neither flag is part of the context. */
  lemma HandoffExact(cfg: Config, deadline: Option<int>, r: Run, run: string)
    requires r.s.ctx.Some?
    ensures Transparent(cfg, deadline, RestoredRun(r, run), r)
       <==> Synced(r.s) && run == r.s.w.live.runId && !r.terminated && r.gate.None?
  {
    hide RunOps;
    var q := RestoredRun(r, run);
    if Synced(r.s) && run == r.s.w.live.runId && !r.terminated && r.gate.None? {
      forall ops
        ensures Same(RunOps(cfg, deadline, q, ops).s.w, RunOps(cfg, deadline, r, ops).s.w)
      {
        RunOpsSame(cfg, deadline, q, r, ops);
      }
    } else if Transparent(cfg, deadline, q, r) {
      TransparentMeans(cfg, deadline, q, r);
      assert false;
    }
  }

  lemma TransparentMeans(cfg: Config, deadline: Option<int>, q: Run, r: Run)
    requires Transparent(cfg, deadline, q, r) && !q.terminated && q.gate.None?
    ensures q.s.w.live == r.s.w.live && !r.terminated && r.gate.None?
  {
    assert Same(RunOps(cfg, deadline, q, []).s.w, RunOps(cfg, deadline, r, []).s.w);
    assert q.s.w.live == r.s.w.live && q.s.w.kernel == r.s.w.kernel;
    hide RunOps;
    ProbeOps(cfg, deadline, q);
    ProbeOps(cfg, deadline, r);
    var probe := [Probe(deadline)];
    assert Same(RunOps(cfg, deadline, q, probe).s.w, RunOps(cfg, deadline, r, probe).s.w);
  }

  lemma ProbeOps(cfg: Config, deadline: Option<int>, r: Run)
    ensures |RunOps(cfg, deadline, r, [Probe(deadline)]).s.w.kernel| > |r.s.w.kernel|
       <==> !r.terminated && r.gate.None?
  {
    hide StageStep;
    assert [Probe(deadline)][1..] == [];
    var one := RunOp(cfg, deadline, r, Probe(deadline));
    assert RunOps(cfg, deadline, r, [Probe(deadline)]) == RunOps(cfg, deadline, one, []);
    ProbeTells(cfg, r.s.w, Probe(deadline).call);
  }

  lemma ProbeTells(cfg: Config, w: World, c: Call)
    requires c.oracle.opening.OpeningOk? && !c.oracle.skip && c.oracle.proposals == []
    ensures |StageStep(cfg, w, c.stage, c.oracle).w.kernel| > |w.kernel|
  {
    hide AfterLoop;
    AfterLoopEvents(cfg, StageOpening(w, c.stage, c.oracle), c.stage, [], c.oracle);
  }
}
