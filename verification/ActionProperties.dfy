/** What one action and one proposal loop do, said without repeating how they do it. */
module ActionProperties {
  import opened RunTypes
  import opened Identifiers
  import opened StageSpec

  /** The action is executed, succeeds and is accepted. */
  predicate Ok(a: Action) { a.success && a.accepted }

  /** The `try` body raises: its fault lies on the path that the answers select. */
  predicate BodyRaises(a: Action) {
    match a.bodyFault
    case BodyOk => false
    case AtDispatch => true
    case AtScore => true
    case AtBranchMark => true
    case AtVerdict => a.success
    case AtTaskView => Ok(a)
    case AtBind => Ok(a)
    case AfterBranchMark => !a.success || a.accepted
  }

  predicate Raises(a: Action) {
    !a.openFault.OpenOk? || BodyRaises(a) || !a.finallyFault.FinallyOk?
  }

  /** The action counter advances: the action got as far as its `finally` block, and that did
      not raise before the counter. */
  predicate Counts(a: Action) {
    a.openFault.OpenOk? && !a.finallyFault.AtGates? && !a.finallyFault.BeforeCounter?
  }

  /** The gate block changes the gate counter and tells the kernel about gates only. */
  lemma {:induction false} GatesFrame(w: World, gates: seq<string>, lastRaises: bool)
    ensures var r := GatesOpened(w, gates, lastRaises);
      && r == w.(kernel := r.kernel, live := w.live.(gateSeq := w.live.gateSeq + |gates|))
      && w.kernel <= r.kernel
      && forall i :: |w.kernel| <= i < |r.kernel| ==> r.kernel[i].GateOpened?
    decreases |gates|
  {
    if gates != [] && !(|gates| == 1 && lastRaises) {
      var numbered := w.(live := w.live.(gateSeq := w.live.gateSeq + 1));
      GatesFrame(Told(numbered, [GateOpened(GateRef(w.live.runId, gates[0], w.live.gateSeq))]), gates[1..], lastRaises);
    }
  }

  lemma FinishedFrame(w: World, a: Action)
    ensures var r := Finished(w, a).0;
      && r == w.(kernel := r.kernel, live := w.live.(gateSeq := r.live.gateSeq, actionSeq := r.live.actionSeq))
      && w.kernel <= r.kernel
      && (forall i :: |w.kernel| <= i < |r.kernel| ==> r.kernel[i].GateOpened?)
      && w.live.gateSeq <= r.live.gateSeq
      && r.live.actionSeq
         == w.live.actionSeq + (if a.finallyFault.AtGates? || a.finallyFault.BeforeCounter? then 0 else 1)
    ensures Finished(w, a).1 <==> !a.finallyFault.FinallyOk?
  {
    GatesFrame(w, a.gates, a.finallyFault.AtGates?);
    var w1 := GatesOpened(w, a.gates, a.finallyFault.AtGates?);
    GatesFrame(w1, ["route_direction"], a.watchdog.GateRaises?);
  }

  /** Where the events of one action's `try` body land in the kernel log. */
  function BodyLog(run: string, stage: string, a: Action, decisionSeq: nat): seq<KernelEvent> {
    if a.bodyFault.AtDispatch? || a.bodyFault.AtScore? then []
    else if !a.success then
      if a.bodyFault.AtBranchMark? then [] else [BranchMarked(stage, a.branch, BranchFailed("harness_denied"))]
    else if a.bodyFault.AtVerdict? then []
    else if !a.accepted then
      if a.bodyFault.AtBranchMark? then [] else [BranchMarked(stage, a.branch, BranchFailed("acceptance_rejected"))]
    else if a.bodyFault.AtTaskView? then []
    else
      [TaskViewRecorded(a.viewId)]
      + (if a.bodyFault.AtBind? then []
         else
           [DecisionBound(a.viewId, DecisionRef(run, stage, a.branch, decisionSeq))]
           + if a.bodyFault.AtBranchMark? then [] else [BranchMarked(stage, a.branch, BranchSucceeded)])
  }

  /** The state in which an action leaves its DAG node; a raise before the score leaves it
      open, a raise between the action's success and its verdict leaves it succeeded. */
  function NodeAfter(a: Action): NodeState {
    if a.bodyFault.AtDispatch? || a.bodyFault.AtScore? then Open
    else if a.success && (a.bodyFault.AtVerdict? || a.accepted) then Succeeded
    else Failed
  }

  /** Whether the action consumes a decision number. */
  predicate TakesDecision(a: Action) {
    && Ok(a)
    && !(a.bodyFault.AtDispatch? || a.bodyFault.AtScore? || a.bodyFault.AtVerdict? || a.bodyFault.AtTaskView?)
  }

  function OpenLog(stage: string, a: Action): seq<KernelEvent> {
    match a.openFault
    case AtOpenBranch => []
    case AtMarkBranchActive => [BranchOpened(stage, a.branch)]
    case _ => [BranchOpened(stage, a.branch), BranchMarked(stage, a.branch, BranchActive)]
  }

  /** The counters after an action whose `finally` block changed the last two as given. */
  function CountedLive(live: Exec, stage: string, a: Action, actionSeq: nat, gateSeq: nat): Exec {
    var ran := a.openFault.OpenOk?;
    live.(totalBranches := live.totalBranches + 1,
          stageBranches := live.stageBranches[stage := StageCount(live.stageBranches, stage) + 1],
          actionSeq := actionSeq, gateSeq := gateSeq,
          decisionSeq := live.decisionSeq + (if ran && TakesDecision(a) then 1 else 0),
          dag := if ran then live.dag[KeyOf(live, stage, a) := Node(stage, a.branch, NodeAfter(a))] else live.dag)
  }

  /** The effect of the `try` body on a world whose node for the action is open. */
  ghost predicate TriedTo(w: World, stage: string, a: Action, arts: seq<string>, t: Attempt) {
    && t.raised == BodyRaises(a)
    && t.w.live == w.live.(decisionSeq := w.live.decisionSeq + (if TakesDecision(a) then 1 else 0),
                           dag := w.live.dag[KeyOf(w.live, stage, a) := Node(stage, a.branch, NodeAfter(a))])
    && t.w.kernel == w.kernel + BodyLog(w.live.runId, stage, a, w.live.decisionSeq)
    && t.w.events == w.events + [ActionDispatched(stage, a.branch, arts)]
    && t.w.saved == w.saved
    && t.artifacts == if a.bodyFault.AtDispatch? then arts else arts + a.artifacts
  }

  ghost predicate NodeOpen(w: World, stage: string, a: Action) {
    var key := KeyOf(w.live, stage, a);
    key in w.live.dag && w.live.dag[key] == Node(stage, a.branch, Open)
  }

  /** A raise before the score. */
  lemma TriedEarly(w: World, stage: string, a: Action, arts: seq<string>)
    requires NodeOpen(w, stage, a) && (a.bodyFault.AtDispatch? || a.bodyFault.AtScore?)
    ensures TriedTo(w, stage, a, arts, Tried(w, stage, a, arts))
  {
    hide NodeKey;
    var d, key := w.live.dag, KeyOf(w.live, stage, a);
    assert d[key := Node(stage, a.branch, Open)] == d;
  }

  lemma TriedFailed(w: World, stage: string, a: Action, arts: seq<string>)
    requires NodeOpen(w, stage, a) && !a.bodyFault.AtDispatch? && !a.bodyFault.AtScore? && !a.success
    ensures TriedTo(w, stage, a, arts, Tried(w, stage, a, arts))
  {
    hide NodeKey;
  }

  /** Success, but a raise before the verdict or a rejection. */
  lemma TriedRejected(w: World, stage: string, a: Action, arts: seq<string>)
    requires NodeOpen(w, stage, a) && !a.bodyFault.AtDispatch? && !a.bodyFault.AtScore? && a.success
    requires a.bodyFault.AtVerdict? || !a.accepted
    ensures TriedTo(w, stage, a, arts, Tried(w, stage, a, arts))
  {
    hide NodeKey;
    var d, key := w.live.dag, KeyOf(w.live, stage, a);
    assert d[key := Node(stage, a.branch, Succeeded)][key := Node(stage, a.branch, Failed)]
        == d[key := Node(stage, a.branch, Failed)];
  }

  lemma TriedAccepted(w: World, stage: string, a: Action, arts: seq<string>)
    requires NodeOpen(w, stage, a) && Ok(a)
    requires !a.bodyFault.AtDispatch? && !a.bodyFault.AtScore? && !a.bodyFault.AtVerdict?
    ensures TriedTo(w, stage, a, arts, Tried(w, stage, a, arts))
  {
    hide NodeKey, DecisionRef;
  }

  lemma TriedEffect(w: World, stage: string, a: Action, arts: seq<string>)
    requires NodeOpen(w, stage, a)
    ensures TriedTo(w, stage, a, arts, Tried(w, stage, a, arts))
  {
    hide Tried, TriedTo, NodeOpen;
    if a.bodyFault.AtDispatch? || a.bodyFault.AtScore? {
      TriedEarly(w, stage, a, arts);
    } else if !a.success {
      TriedFailed(w, stage, a, arts);
    } else if a.bodyFault.AtVerdict? || !a.accepted {
      TriedRejected(w, stage, a, arts);
    } else {
      TriedAccepted(w, stage, a, arts);
    }
  }

  lemma OpenedEffect(w: World, stage: string, a: Action)
    ensures var w0 := Opened(w, stage, a);
      && w0.kernel == w.kernel + OpenLog(stage, a)
      && w0.events == w.events && w0.saved == w.saved
      && w0.live == w.live.(
           totalBranches := w.live.totalBranches + 1,
           stageBranches := w.live.stageBranches[stage := StageCount(w.live.stageBranches, stage) + 1],
           dag := if a.openFault.OpenOk?
                  then w.live.dag[KeyOf(w.live, stage, a) := Node(stage, a.branch, Open)] else w.live.dag)
  {
  }

  /** Every action, raising or not: the exact counters, DAG and logs it leaves. */
  lemma ActionEffect(w: World, stage: string, a: Action, arts: seq<string>)
    ensures var r := Executed(w, stage, a, arts);
      && r.raised == Raises(a)
      && r.w.live == CountedLive(w.live, stage, a, r.w.live.actionSeq, r.w.live.gateSeq)
      && r.w.live.actionSeq == w.live.actionSeq + (if Counts(a) then 1 else 0)
      && w.live.gateSeq <= r.w.live.gateSeq
      && r.w.saved == w.saved
      && ActionLog(w, stage, a, r.w.kernel)
  {
    var w0 := Opened(w, stage, a);
    OpenedEffect(w, stage, a);
    if a.openFault.OpenOk? {
      TriedEffect(w0, stage, a, arts);
      var t := Tried(w0, stage, a, arts);
      FinishedEffect(w, w0, t, stage, a);
    } else {
      assert w0.kernel == w.kernel + OpenLog(stage, a) + [];
    }
  }

  /** The kernel log after an action: its own events, then gates. */
  ghost predicate ActionLog(w: World, stage: string, a: Action, log: seq<KernelEvent>) {
    var own := w.kernel + OpenLog(stage, a)
               + if a.openFault.OpenOk? then BodyLog(w.live.runId, stage, a, w.live.decisionSeq) else [];
    own <= log && OnlyGates(log[|own|..])
  }

  lemma FinishedEffect(w: World, w0: World, t: Attempt, stage: string, a: Action)
    requires a.openFault.OpenOk?
    requires w0.kernel == w.kernel + OpenLog(stage, a)
    requires w0.live == CountedLive(w.live, stage, a, w.live.actionSeq, w.live.gateSeq).(
                          decisionSeq := w.live.decisionSeq,
                          dag := w.live.dag[KeyOf(w.live, stage, a) := Node(stage, a.branch, Open)])
    requires t.w.live == w0.live.(decisionSeq := w.live.decisionSeq + (if TakesDecision(a) then 1 else 0),
                                  dag := w0.live.dag[KeyOf(w.live, stage, a) := Node(stage, a.branch, NodeAfter(a))])
    requires t.w.kernel == w0.kernel + BodyLog(w.live.runId, stage, a, w.live.decisionSeq)
    ensures var r := Finished(t.w, a).0;
      && r.live == CountedLive(w.live, stage, a, r.live.actionSeq, r.live.gateSeq)
      && r.live.actionSeq == w.live.actionSeq + (if Counts(a) then 1 else 0)
      && w.live.gateSeq <= r.live.gateSeq
      && ActionLog(w, stage, a, r.kernel)
      && r.saved == t.w.saved && r.events == t.w.events
      && Finished(t.w, a).1 == !a.finallyFault.FinallyOk?
  {
    hide Finished, OpenLog, BodyLog, NodeKey, NodeAfter, TakesDecision;
    FinishedFrame(t.w, a);
    var key := KeyOf(w.live, stage, a);
    assert w.live.dag[key := Node(stage, a.branch, Open)][key := Node(stage, a.branch, NodeAfter(a))]
        == w.live.dag[key := Node(stage, a.branch, NodeAfter(a))];
    var r := Finished(t.w, a).0;
    assert forall i :: |t.w.kernel| <= i < |r.kernel| ==> r.kernel[|t.w.kernel|..][i - |t.w.kernel|] == r.kernel[i];
  }

  /** An action that does not raise hands its artifacts on, records what it was given, and
      leaves its node succeeded exactly when it was accepted. */
  lemma CleanAction(w: World, stage: string, a: Action, arts: seq<string>)
    requires !Raises(a)
    ensures var r := Executed(w, stage, a, arts);
      && r.artifacts == arts + a.artifacts
      && r.w.events == w.events + [ActionDispatched(stage, a.branch, arts)]
    ensures NodeAfter(a) == if Ok(a) then Succeeded else Failed
    ensures TakesDecision(a) <==> Ok(a)
  {
    var w0 := Opened(w, stage, a);
    TriedEffect(w0, stage, a, arts);
    FinishedFrame(Tried(w0, stage, a, arts).w, a);
  }

  ghost predicate OnlyGates(log: seq<KernelEvent>) { forall i :: 0 <= i < |log| ==> log[i].GateOpened? }

  // ----- Exact consumption -----

  function Min(x: int, y: int): int { if x <= y then x else y }

  function Clamp(x: int): nat { if x < 0 then 0 else x }

  /** How many actions the limits still admit for this stage, at most `wanted`. */
  function Admitted(cfg: Config, live: Exec, stage: string, wanted: nat): nat {
    var branches := Min(Clamp(cfg.perStageCap - StageCount(live.stageBranches, stage)),
                        Clamp(cfg.runCap - live.totalBranches));
    var n := Min(wanted, branches);
    if cfg.maxActions.Some? then Min(n, Clamp(cfg.maxActions.value - live.actionSeq)) else n
  }

  /** The index of the first proposal that raises, or the number of proposals. */
  function FirstRaise(ps: seq<Action>): (k: nat)
    ensures k <= |ps|
    ensures forall i :: 0 <= i < k ==> !Raises(ps[i])
    ensures k < |ps| ==> Raises(ps[k])
  {
    if ps == [] || Raises(ps[0]) then 0 else 1 + FirstRaise(ps[1..])
  }

  /** Executing a list of actions with no budget check at all. */
  function RunAll(w: World, stage: string, ps: seq<Action>, arts: seq<string>): Attempt
    decreases |ps|
  {
    if ps == [] then Attempt(w, arts, false)
    else
      var r := Executed(w, stage, ps[0], arts);
      if r.raised then r else RunAll(r.w, stage, ps[1..], r.artifacts)
  }

  function ExhaustionCode(cfg: Config, live: Exec): FailureCode {
    if cfg.maxActions.Some? && live.actionSeq >= cfg.maxActions.value then ExecutionBudgetExhausted
    else ExplorationBudgetExhausted
  }

  lemma AdmittedStep(cfg: Config, live: Exec, next: Exec, stage: string, wanted: nat)
    requires wanted > 0 && CheckBudget(cfg, live, stage).None?
    requires next.totalBranches == live.totalBranches + 1 && next.actionSeq == live.actionSeq + 1
    requires StageCount(next.stageBranches, stage) == StageCount(live.stageBranches, stage) + 1
    ensures Admitted(cfg, live, stage, wanted) == Admitted(cfg, next, stage, wanted - 1) + 1
  {
  }

  lemma BudgetMeansAdmitted(cfg: Config, live: Exec, stage: string, wanted: nat)
    requires wanted > 0
    ensures CheckBudget(cfg, live, stage).None? <==> Admitted(cfg, live, stage, wanted) > 0
    ensures CheckBudget(cfg, live, stage).Some? ==> CheckBudget(cfg, live, stage).value == ExhaustionCode(cfg, live)
  {
  }

  /** What the loop owes: the prefix it runs, and the event when proposals are left over. */
  ghost predicate RunsPrefix(cfg: Config, w: World, stage: string, ps: seq<Action>, arts: seq<string>, l: Attempt) {
    var n := Admitted(cfg, w.live, stage, |ps|);
    var k := FirstRaise(ps);
    if k < n then l == RunAll(w, stage, ps[..k + 1], arts) && l.raised
    else
      var r := RunAll(w, stage, ps[..n], arts);
      && !r.raised
      && l == if n == |ps| then r
              else Attempt(Recorded(r.w, BudgetExhausted(stage, ExhaustionCode(cfg, r.w.live))), r.artifacts,
                           ps[n].exhaustionRaises)
  }

  lemma PrefixStep(cfg: Config, w: World, stage: string, ps: seq<Action>, arts: seq<string>, r: Attempt, l: Attempt)
    requires ps != [] && CheckBudget(cfg, w.live, stage).None?
    requires r == Executed(w, stage, ps[0], arts) && !r.raised && !Raises(ps[0])
    requires Admitted(cfg, w.live, stage, |ps|) == Admitted(cfg, r.w.live, stage, |ps| - 1) + 1
    requires RunsPrefix(cfg, r.w, stage, ps[1..], r.artifacts, l)
    ensures RunsPrefix(cfg, w, stage, ps, arts, l)
  {
    hide Executed, Raises, RunAll;
    var n := Admitted(cfg, w.live, stage, |ps|);
    var k := FirstRaise(ps);
    var first := ps[..if k < n then k + 1 else n];
    assert first[1..] == ps[1..][..if k < n then k else n - 1];
    RunAllStep(w, stage, first, arts, r);
  }

  lemma RunAllStep(w: World, stage: string, ps: seq<Action>, arts: seq<string>, r: Attempt)
    requires ps != [] && r == Executed(w, stage, ps[0], arts)
    ensures RunAll(w, stage, ps, arts) == if r.raised then r else RunAll(r.w, stage, ps[1..], r.artifacts)
  {
  }

  /** The loop executes exactly the admitted prefix, or up to the first raise inside it. The
      exhaustion event is recorded once, exactly when proposals are left over, and its code
      names the action budget exactly when that budget is spent at this point; the loop
      raises there when recording the event does. */
  lemma {:induction false} ExactConsumption(cfg: Config, w: World, stage: string, ps: seq<Action>, arts: seq<string>)
    ensures RunsPrefix(cfg, w, stage, ps, arts, Loop(cfg, w, stage, ps, arts))
    decreases |ps|
  {
    if ps == [] {
    } else if CheckBudget(cfg, w.live, stage).Some? {
      BudgetMeansAdmitted(cfg, w.live, stage, |ps|);
    } else {
      BudgetMeansAdmitted(cfg, w.live, stage, |ps|);
      var r := Executed(w, stage, ps[0], arts);
      ActionEffect(w, stage, ps[0], arts);
      if Raises(ps[0]) {
        assert ps[..1][0] == ps[0];
        RunAllStep(w, stage, ps[..1], arts, r);
      } else {
        AdmittedStep(cfg, w.live, r.w.live, stage, |ps|);
        ExactConsumption(cfg, r.w, stage, ps[1..], r.artifacts);
        PrefixStep(cfg, w, stage, ps, arts, r, Loop(cfg, r.w, stage, ps[1..], r.artifacts));
      }
    }
  }
}
