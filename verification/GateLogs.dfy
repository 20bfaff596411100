/** The gates that a run of actions opens: which ones, and under which references. */
module GateLogs {
  import opened RunTypes
  import opened Identifiers
  import opened StageSpec
  import opened ActionProperties
  import opened BranchAgreement
  import opened Freshness

  const WATCHDOG_GATE := "route_direction"

  /** The gates of which an action tells the kernel: all its triggers' gates and a watchdog gate
      that opens; when a trigger raises, those before it; none when the action raises before
      its `try`. */
  function GateTypes(a: Action): seq<string> {
    if !a.openFault.OpenOk? then []
    else if a.finallyFault.AtGates? then a.gates[..if a.gates == [] then 0 else |a.gates| - 1]
    else a.gates + if a.watchdog.OpensGate? then [WATCHDOG_GATE] else []
  }

  /** The gate numbers it takes; a gate that raises takes one too. */
  function GateNumbers(a: Action): nat {
    if !a.openFault.OpenOk? then 0
    else |a.gates| + if a.finallyFault.AtGates? || a.watchdog.Quiet? then 0 else 1
  }

  /** Consecutively numbered references. */
  function GateRefs(run: string, gates: seq<string>, n: nat): seq<string> {
    if gates == [] then [] else [GateRef(run, gates[0], n)] + GateRefs(run, gates[1..], n + 1)
  }

  /** The references of a list of actions, numbers lost to swallowed raises left out. */
  function RunGateRefs(run: string, ps: seq<Action>, n: nat): seq<string>
    decreases |ps|
  {
    if ps == [] then [] else GateRefs(run, GateTypes(ps[0]), n) + RunGateRefs(run, ps[1..], n + GateNumbers(ps[0]))
  }

  function NumbersTaken(ps: seq<Action>): nat {
    if ps == [] then 0 else GateNumbers(ps[0]) + NumbersTaken(ps[1..])
  }

  lemma {:induction false} GateRefAt(run: string, gates: seq<string>, n: nat, i: nat)
    requires i < |gates|
    ensures |GateRefs(run, gates, n)| == |gates| && GateRefs(run, gates, n)[i] == GateRef(run, gates[i], n + i)
    decreases |gates|
  {
    hide GateRef;
    if |gates| > 1 { GateRefAt(run, gates[1..], n + 1, if i == 0 then 0 else i - 1); }
  }

  /** The world after opening gates, of which the last one may raise. */
  lemma {:induction false} GatesLog(w: World, gates: seq<string>, lastRaises: bool)
    ensures var r := GatesOpened(w, gates, lastRaises);
      var told := if lastRaises && gates != [] then gates[..|gates| - 1] else gates;
      && r.live == w.live.(gateSeq := w.live.gateSeq + |gates|)
      && Project(r.kernel, GateOf) == Project(w.kernel, GateOf) + GateRefs(w.live.runId, told, w.live.gateSeq)
    decreases |gates|
  {
    hide Project, GateRef;
    if gates != [] && !(|gates| == 1 && lastRaises) {
      var event := GateOpened(GateRef(w.live.runId, gates[0], w.live.gateSeq));
      ProjectAppend(w.kernel, [event], GateOf);
      Single(event, GateOf);
      GatesLog(Told(w.(live := w.live.(gateSeq := w.live.gateSeq + 1)), [event]), gates[1..], lastRaises);
      assert lastRaises ==> gates[..|gates| - 1][1..] == gates[1..][..|gates| - 2];
    }
  }

  lemma FinishedGates(w: World, a: Action)
    requires a.openFault.OpenOk?
    ensures var r := Finished(w, a).0;
      && r.live.gateSeq == w.live.gateSeq + GateNumbers(a) && r.live.runId == w.live.runId
      && Project(r.kernel, GateOf) == Project(w.kernel, GateOf) + GateRefs(w.live.runId, GateTypes(a), w.live.gateSeq)
  {
    hide Project, GateRef, GatesOpened;
    GatesLog(w, a.gates, a.finallyFault.AtGates?);
    if a.finallyFault.AtGates? {
      assert a.gates == [] ==> a.gates[..0] == a.gates;
    } else {
      var w1 := GatesOpened(w, a.gates, false);
      GatesLog(w1, [WATCHDOG_GATE], a.watchdog.GateRaises?);
      GateRefsAppend(w.live.runId, a.gates, [WATCHDOG_GATE], w.live.gateSeq);
      assert [WATCHDOG_GATE][..0] == [];
      assert a.gates + [] == a.gates;
    }
  }

  lemma {:induction false} GateRefsAppend(run: string, a: seq<string>, b: seq<string>, n: nat)
    ensures GateRefs(run, a + b, n) == GateRefs(run, a, n) + GateRefs(run, b, n + |a|)
    decreases |a|
  {
    hide GateRef;
    if a == [] {
      assert a + b == b;
    } else {
      assert (a + b)[1..] == a[1..] + b;
      GateRefsAppend(run, a[1..], b, n + 1);
    }
  }

  /** Every action, raising or not: the gates it tells the kernel about and the numbers it
      takes. */
  lemma ActionGates(w: World, stage: string, a: Action, arts: seq<string>)
    ensures var r := Executed(w, stage, a, arts);
      && r.w.live.runId == w.live.runId
      && r.w.live.gateSeq == w.live.gateSeq + GateNumbers(a)
      && Project(r.w.kernel, GateOf)
         == Project(w.kernel, GateOf) + GateRefs(w.live.runId, GateTypes(a), w.live.gateSeq)
  {
    hide Project, Finished, GateRefs;
    var w0 := Opened(w, stage, a);
    OpenedEffect(w, stage, a);
    AppendNone(w.kernel, OpenLog(stage, a), GateOf);
    if a.openFault.OpenOk? {
      TriedEffect(w0, stage, a, arts);
      AppendNone(w0.kernel, BodyLog(w.live.runId, stage, a, w.live.decisionSeq), GateOf);
      FinishedGates(Tried(w0, stage, a, arts).w, a);
    } else {
      NoGateRefs(w.live.runId, w.live.gateSeq);
    }
  }

  lemma NoGateRefs(run: string, n: nat)
    ensures GateRefs(run, [], n) == []
  {
  }

  /** Over a run of actions that do not raise, the kernel is told about exactly their gates, in
      order and numbered one after the other. */
  lemma {:induction false} RunGates(w: World, stage: string, ps: seq<Action>, arts: seq<string>)
    requires AllClean(ps)
    ensures var r := RunAll(w, stage, ps, arts).w;
      && Project(r.kernel, GateOf) == Project(w.kernel, GateOf) + RunGateRefs(w.live.runId, ps, w.live.gateSeq)
      && r.live.gateSeq == w.live.gateSeq + NumbersTaken(ps)
    decreases |ps|
  {
    hide Executed, Project, Raises, GateRefs, GateTypes, GateNumbers;
    if ps != [] {
      var r := Executed(w, stage, ps[0], arts);
      assert !r.raised by { ActionEffect(w, stage, ps[0], arts); }
      ActionGates(w, stage, ps[0], arts);
      RunAllStep(w, stage, ps, arts, r);
      RunGates(r.w, stage, ps[1..], r.artifacts);
    }
  }
}
