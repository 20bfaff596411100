/** Stage calls as the shipped adapter, gate triggers and watchdog can bring them about in a run
    without an action budget. Safety holds for all calls; what only some schedule does is shown
    with these. */
module ShippedCalls {
  import opened Options
  import opened RunTypes
  import opened Identifiers
  import opened StageSpec
  import opened ActionProperties
  import opened BranchAgreement
  import opened RunSessions
  import opened GateLogs

  // ----- Identifiers that the adapter accepts -----

  const SPACES: set<char> := {' ', '\t', '\n', '\r'}

  /** Nothing is left after stripping. */
  predicate Blank(s: string) { forall i :: 0 <= i < |s| ==> s[i] in SPACES }

  // ----- Gates -----

  const CORRECTION_GATE := "contract_correction"
  const REVIEW_GATE := "artifact_review"
  const APPROVAL_GATE := "final_approval"

  const GATE_TYPES: set<string> := {CORRECTION_GATE, WATCHDOG_GATE, REVIEW_GATE, APPROVAL_GATE}

  /** The triggers in their order, each at most once. */
  function Triggered(correction: bool, review: bool, approval: bool): seq<string> {
    (if correction then [CORRECTION_GATE] else [])
    + (if review then [REVIEW_GATE] else [])
    + (if approval then [APPROVAL_GATE] else [])
  }

  /** Gates that one action's triggers can open when the contract has no action budget, which
      the fourth trigger needs. Only a failed action calls for a correction. */
  predicate GatesFit(a: Action) {
    exists correction, review, approval ::
      (correction ==> !a.success) && a.gates == Triggered(correction, review, approval)
  }

  // ----- The watchdog that an executor builds by default -----

  const MAX_CONSECUTIVE_FAILURES: nat := 5
  const WINDOW_SIZE: nat := 10

  function TrailingFailures(ps: seq<Action>): nat {
    if ps == [] || ps[|ps| - 1].success then 0 else 1 + TrailingFailures(ps[..|ps| - 1])
  }

  function Successes(ps: seq<Action>): nat {
    if ps == [] then 0 else (if ps[0].success then 1 else 0) + Successes(ps[1..])
  }

  /** It triggers after these actions of a stage: too many failures in a row, or a full window
      with a success rate below one fifth. */
  predicate WatchdogTriggers(ps: seq<Action>) {
    || TrailingFailures(ps) >= MAX_CONSECUTIVE_FAILURES
    || (|ps| >= WINDOW_SIZE && 5 * Successes(ps[|ps| - WINDOW_SIZE..]) < WINDOW_SIZE)
  }

  // ----- Calls -----

  predicate Receivable(run: string, c: Call) {
    var ps := c.oracle.proposals;
    && !Blank(run) && !Blank(c.stage)
    && forall i :: 0 <= i < |ps| ==>
         !Blank(ps[i].branch) && GatesFit(ps[i]) && (ps[i].watchdog.Quiet? <==> !WatchdogTriggers(ps[..i + 1]))
  }

  predicate AllReceivable(run: string, calls: seq<Call>) {
    forall i :: 0 <= i < |calls| ==> Receivable(run, calls[i])
  }

  lemma {:induction false} TrailingAtMost(ps: seq<Action>, n: nat)
    requires n <= |ps| && forall i :: 0 <= i < n ==> ps[i].success
    ensures TrailingFailures(ps) <= |ps| - n
  {
    if |ps| > n { TrailingAtMost(ps[..|ps| - 1], n); }
  }

  lemma {:induction false} TrailingAtLeast(ps: seq<Action>, k: nat)
    requires k <= |ps| && forall i :: |ps| - k <= i < |ps| ==> !ps[i].success
    ensures TrailingFailures(ps) >= k
  {
    if k > 0 { TrailingAtLeast(ps[..|ps| - 1], k - 1); }
  }

  lemma {:induction false} SuccessesAtLeast(ps: seq<Action>, n: nat)
    requires n <= |ps| && forall i :: 0 <= i < n ==> ps[i].success
    ensures Successes(ps) >= n
  {
    if n > 0 { SuccessesAtLeast(ps[1..], n - 1); }
  }

  /** Fewer than five actions after a row of successes keep the watchdog quiet. */
  lemma StaysQuiet(ps: seq<Action>, n: nat)
    requires n <= |ps| < n + MAX_CONSECUTIVE_FAILURES && forall i :: 0 <= i < n ==> ps[i].success
    ensures !WatchdogTriggers(ps)
  {
    TrailingAtMost(ps, n);
    if |ps| >= WINDOW_SIZE {
      var window := ps[|ps| - WINDOW_SIZE..];
      var first := WINDOW_SIZE - (|ps| - n);
      SuccessesAtLeast(window, if first < 0 then 0 else first);
    }
  }

  // ----- Calls in which nothing raises -----

  function SmoothCall(stage: string, ps: seq<Action>): Call {
    Call(stage, StageOracle(OpeningOk, false, ps, NoVerdict, ClosingOk, "", false))
  }

  /** An action without a fault. */
  function SmoothAction(branch: string, ok: bool, gates: seq<string>, view: string): Action {
    Action(branch, false, ok, ok, [], view, None, gates, Quiet, OpenOk, BodyOk, FinallyOk)
  }

  lemma {:induction false} FaultFree(ps: seq<Action>)
    requires AllClean(ps)
    ensures FirstRaise(ps) == |ps|
  {
    if ps != [] {
      assert forall i :: 0 <= i < |ps[1..]| ==> ps[1..][i] == ps[i + 1];
      FaultFree(ps[1..]);
    }
  }

  /** Within the limits a call without faults runs all its actions, and apart from them tells
      the kernel about the stage only. */
  lemma SmoothStage(cfg: Config, w: World, stage: string, ps: seq<Action>)
    requires AllClean(ps) && Admitted(cfg, w.live, stage, |ps|) == |ps|
    ensures var o := SmoothCall(stage, ps).oracle;
      var w0 := StageOpening(w, stage, o);
      && w.kernel <= w0.kernel && OnlyStages(w0.kernel[|w.kernel|..]) && w0.live == w.live.(currentStage := stage)
      && OnlyCloses(RunAll(w0, stage, ps, []).w, StageStep(cfg, w, stage, o).w)
  {
    hide RunAll, AfterLoop, Raises, OnlyCloses, Loop;
    var o := SmoothCall(stage, ps).oracle;
    var w0 := StageOpening(w, stage, o);
    FaultFree(ps);
    SameAdmitted(cfg, w.live, stage, |ps|);
    ExactConsumption(cfg, w0, stage, ps, []);
    assert ps[..|ps|] == ps;
    var l := Loop(cfg, w0, stage, ps, []);
    AfterLoopEvents(cfg, l.w, stage, l.artifacts, o);
  }

  lemma SameAdmitted(cfg: Config, live: Exec, stage: string, wanted: nat)
    ensures Admitted(cfg, live.(currentStage := stage), stage, wanted) == Admitted(cfg, live, stage, wanted)
  {
  }

  lemma OneCall(cfg: Config, s: Session, c: Call)
    ensures RunCalls(cfg, s, [c]) == SessionStep(cfg, s, c)
  {
    hide SessionStep;
    assert [c][1..] == [];
    assert RunCalls(cfg, SessionStep(cfg, s, c), []) == SessionStep(cfg, s, c);
  }

  // ----- Logs of such calls -----

  /** What every receivable call has, with or without an action budget. */
  predicate Plain(c: Call) {
    var ps := c.oracle.proposals;
    && !Blank(c.stage)
    && forall i :: 0 <= i < |ps| ==> !Blank(ps[i].branch) && forall g :: g in ps[i].gates ==> g in GATE_TYPES
  }

  lemma ReceivablePlain(run: string, c: Call)
    requires Receivable(run, c)
    ensures Plain(c)
  {
    hide Blank, WatchdogTriggers;
    var ps := c.oracle.proposals;
    forall i | 0 <= i < |ps|
      ensures !Blank(ps[i].branch) && forall g :: g in ps[i].gates ==> g in GATE_TYPES
    {
      assert GatesFit(ps[i]);
    }
  }

  /** A decision of the run in a stage and branch that the adapter accepts, a gate of a known
      type, or anything else. */
  ghost predicate ShippedEvent(run: string, e: KernelEvent) {
    match e
    case DecisionBound(_, ref) =>
      exists stage, branch, n :: !Blank(stage) && !Blank(branch) && ref == DecisionRef(run, stage, branch, n)
    case GateOpened(ref) => exists gateType, n :: gateType in GATE_TYPES && ref == GateRef(run, gateType, n)
    case _ => true
  }

  /** The second world's log is the first one's with shipped events behind it. */
  ghost predicate TellsShipped(w: World, v: World) {
    && v.live.runId == w.live.runId && w.kernel <= v.kernel
    && forall i :: |w.kernel| <= i < |v.kernel| ==> ShippedEvent(w.live.runId, v.kernel[i])
  }

  lemma TellsOn(w: World, v: World, u: World)
    requires TellsShipped(w, v) && TellsShipped(v, u)
    ensures TellsShipped(w, u)
  {
    hide ShippedEvent;
  }

  lemma {:induction false} GatesShipped(w: World, gates: seq<string>, lastRaises: bool)
    requires forall g :: g in gates ==> g in GATE_TYPES
    ensures TellsShipped(w, GatesOpened(w, gates, lastRaises))
    decreases |gates|
  {
    hide GateRef;
    if gates != [] && !(|gates| == 1 && lastRaises) {
      var event := GateOpened(GateRef(w.live.runId, gates[0], w.live.gateSeq));
      var next := Told(w.(live := w.live.(gateSeq := w.live.gateSeq + 1)), [event]);
      assert gates[0] in gates && ShippedEvent(w.live.runId, event);
      GatesShipped(next, gates[1..], lastRaises);
      TellsOn(w, next, GatesOpened(next, gates[1..], lastRaises));
    }
  }

  lemma FinishedShipped(w: World, a: Action)
    requires forall g :: g in a.gates ==> g in GATE_TYPES
    ensures TellsShipped(w, Finished(w, a).0)
  {
    hide GatesOpened, TellsShipped;
    GatesShipped(w, a.gates, a.finallyFault == AtGates);
    var w1 := GatesOpened(w, a.gates, a.finallyFault == AtGates);
    GatesShipped(w1, [WATCHDOG_GATE], a.watchdog.GateRaises?);
    var w2 := GatesOpened(w1, [WATCHDOG_GATE], a.watchdog.GateRaises?);
    TellsOn(w, w1, w2);
    CounterTellsNothing(w, w1, w1.live.actionSeq + 1);
    CounterTellsNothing(w, w2, w2.live.actionSeq + 1);
  }

  lemma CounterTellsNothing(w: World, v: World, actionSeq: nat)
    ensures TellsShipped(w, v) ==> TellsShipped(w, v.(live := v.live.(actionSeq := actionSeq)))
  {
  }

  lemma OwnShipped(run: string, stage: string, a: Action, n: nat)
    requires !Blank(stage) && !Blank(a.branch)
    ensures forall i :: 0 <= i < |OpenLog(stage, a)| ==> ShippedEvent(run, OpenLog(stage, a)[i])
    ensures forall i :: 0 <= i < |BodyLog(run, stage, a, n)| ==> ShippedEvent(run, BodyLog(run, stage, a, n)[i])
  {
    hide DecisionRef, Blank;
  }

  lemma TellsMore(w: World, v: World, more: seq<KernelEvent>)
    requires v.kernel == w.kernel + more && v.live.runId == w.live.runId
    requires forall i :: 0 <= i < |more| ==> ShippedEvent(w.live.runId, more[i])
    ensures TellsShipped(w, v)
  {
    hide ShippedEvent;
  }

  lemma ExecutedShipped(w: World, stage: string, a: Action, arts: seq<string>)
    requires !Blank(stage) && !Blank(a.branch) && forall g :: g in a.gates ==> g in GATE_TYPES
    ensures TellsShipped(w, Executed(w, stage, a, arts).w)
  {
    hide TellsShipped, Finished, Tried, OpenLog, BodyLog, ShippedEvent, Blank;
    var w0 := Opened(w, stage, a);
    OpenedEffect(w, stage, a);
    OwnShipped(w.live.runId, stage, a, w.live.decisionSeq);
    TellsMore(w, w0, OpenLog(stage, a));
    if a.openFault.OpenOk? {
      TriedEffect(w0, stage, a, arts);
      var t := Tried(w0, stage, a, arts).w;
      TellsMore(w0, t, BodyLog(w.live.runId, stage, a, w.live.decisionSeq));
      FinishedShipped(t, a);
      TellsOn(w, w0, t);
      TellsOn(w, t, Finished(t, a).0);
    }
  }

  lemma {:induction false} LoopShipped(cfg: Config, w: World, stage: string, ps: seq<Action>, arts: seq<string>)
    requires !Blank(stage)
    requires forall i :: 0 <= i < |ps| ==> !Blank(ps[i].branch) && forall g :: g in ps[i].gates ==> g in GATE_TYPES
    ensures TellsShipped(w, Loop(cfg, w, stage, ps, arts).w)
    decreases |ps|
  {
    hide Executed, Blank, ShippedEvent;
    if ps != [] && CheckBudget(cfg, w.live, stage).None? {
      var r := Executed(w, stage, ps[0], arts);
      ExecutedShipped(w, stage, ps[0], arts);
      if !r.raised {
        LoopShipped(cfg, r.w, stage, ps[1..], r.artifacts);
        TellsOn(w, r.w, Loop(cfg, r.w, stage, ps[1..], r.artifacts).w);
      }
    }
  }

  lemma StageEventsShipped(run: string, events: seq<KernelEvent>)
    requires OnlyStages(events)
    ensures forall i :: 0 <= i < |events| ==> ShippedEvent(run, events[i])
  {
  }

  /** A call with identifiers that the adapter accepts and gates of known types tells the kernel
      about no other decisions and gates, whatever raises in it. */
  lemma StageShipped(cfg: Config, w: World, c: Call)
    requires Plain(c)
    ensures TellsShipped(w, StageStep(cfg, w, c.stage, c.oracle).w)
  {
    hide Loop, StageStep, TellsShipped, Blank, ShippedEvent;
    var w0 := StageOpening(w, c.stage, c.oracle);
    var r := StageStep(cfg, w, c.stage, c.oracle).w;
    StageFrame(cfg, w, c.stage, c.oracle);
    var l := Loop(cfg, w0, c.stage, c.oracle.proposals, []);
    LoopShipped(cfg, w0, c.stage, c.oracle.proposals, []);
    StageEventsShipped(w.live.runId, w0.kernel[|w.kernel|..]);
    TellsMore(w, w0, w0.kernel[|w.kernel|..]);
    TellsMore(w0, w0, []);
    var mid: World, events: seq<KernelEvent> :|
      && (mid == w0 || mid == l.w)
      && r.kernel == mid.kernel + events && OnlyStages(events)
      && r.live == mid.live.(summaries := r.live.summaries);
    StageEventsShipped(mid.live.runId, events);
    TellsMore(mid, r, events);
    TellsOn(w, w0, mid);
    TellsOn(w, mid, r);
  }

  ghost predicate ShippedLog(run: string, log: seq<KernelEvent>) {
    forall i :: 0 <= i < |log| ==> ShippedEvent(run, log[i])
  }

  lemma {:induction false} RunShipped(cfg: Config, s: Session, calls: seq<Call>)
    requires ShippedLog(s.w.live.runId, s.w.kernel) && forall i :: 0 <= i < |calls| ==> Plain(calls[i])
    ensures var e := RunCalls(cfg, s, calls).w; e.live.runId == s.w.live.runId && ShippedLog(e.live.runId, e.kernel)
    decreases |calls|
  {
    hide StageStep, ShippedEvent, Plain;
    if calls != [] {
      StageShipped(cfg, s.w, calls[0]);
      RunShipped(cfg, SessionStep(cfg, s, calls[0]), calls[1..]);
    }
  }
}
