/** Agreement of the kernel log, the DAG, the decisions and the artifact lineage over a whole
    proposal loop. */
module BranchAgreement {
  import opened RunTypes
  import opened Identifiers
  import opened StageSpec
  import opened ActionProperties

  // ----- Reading the kernel log -----

  function Project<T>(log: seq<KernelEvent>, f: KernelEvent -> seq<T>): seq<T> {
    if log == [] then [] else Project(log[..|log| - 1], f) + f(log[|log| - 1])
  }

  function OpenedOf(e: KernelEvent): seq<(string, string)> {
    if e.BranchOpened? then [(e.stage, e.branch)] else []
  }

  /** Terminal marks, of either kind. */
  function EndedOf(e: KernelEvent): seq<(string, string)> {
    if e.BranchMarked? && !e.bmark.BranchActive? then [(e.stage, e.branch)] else []
  }

  function SucceededOf(e: KernelEvent): seq<(string, string)> {
    if e.BranchMarked? && e.bmark.BranchSucceeded? then [(e.stage, e.branch)] else []
  }

  function BindingOf(e: KernelEvent): seq<(string, string)> {
    if e.DecisionBound? then [(e.view, e.decisionRef)] else []
  }

  function GateOf(e: KernelEvent): seq<string> {
    if e.GateOpened? then [e.gateRef] else []
  }

  lemma ProjectEmpty<T>(f: KernelEvent -> seq<T>)
    ensures Project([], f) == []
  {
  }

  lemma {:induction false} ProjectAppend<T>(a: seq<KernelEvent>, b: seq<KernelEvent>, f: KernelEvent -> seq<T>)
    ensures Project(a + b, f) == Project(a, f) + Project(b, f)
  {
    if b == [] {
      assert a + b == a;
    } else {
      var ab := a + b;
      assert ab[..|ab| - 1] == a + b[..|b| - 1];
      ProjectAppend(a, b[..|b| - 1], f);
    }
  }

  lemma {:induction false} ProjectGates<T>(log: seq<KernelEvent>, f: KernelEvent -> seq<T>)
    requires OnlyGates(log) && forall g :: f(GateOpened(g)) == []
    ensures Project(log, f) == []
  {
    if log != [] {
      ProjectGates(log[..|log| - 1], f);
      assert log[|log| - 1] == GateOpened(log[|log| - 1].gateRef);
    }
  }

  /** What one action adds to a projection that does not look at gates. */
  lemma ActionLogProjects<T>(w: World, stage: string, a: Action, log: seq<KernelEvent>, f: KernelEvent -> seq<T>)
    requires ActionLog(w, stage, a, log) && forall g :: f(GateOpened(g)) == []
    ensures Project(log, f)
         == Project(w.kernel, f) + Project(OpenLog(stage, a), f)
            + if a.openFault.OpenOk? then Project(BodyLog(w.live.runId, stage, a, w.live.decisionSeq), f) else []
  {
    var body := if a.openFault.OpenOk? then BodyLog(w.live.runId, stage, a, w.live.decisionSeq) else [];
    var own := w.kernel + OpenLog(stage, a) + body;
    assert log == own + log[|own|..];
    ProjectGates(log[|own|..], f);
    ProjectAppend(own, log[|own|..], f);
    ProjectAppend(w.kernel + OpenLog(stage, a), body, f);
    ProjectAppend(w.kernel, OpenLog(stage, a), f);
  }

  // ----- The list of executed actions -----

  function Branches(stage: string, ps: seq<Action>): seq<(string, string)> {
    if ps == [] then [] else [(stage, ps[0].branch)] + Branches(stage, ps[1..])
  }

  function Accepted(ps: seq<Action>): (r: seq<Action>)
    ensures |r| <= |ps|
  {
    if ps == [] then [] else (if Ok(ps[0]) then [ps[0]] else []) + Accepted(ps[1..])
  }

  function Artifacts(ps: seq<Action>): seq<string> {
    if ps == [] then [] else ps[0].artifacts + Artifacts(ps[1..])
  }

  /** One view and one consecutively numbered reference per accepted action. */
  function Bindings(run: string, stage: string, ps: seq<Action>, decisionSeq: nat): seq<(string, string)> {
    if ps == [] then []
    else [(ps[0].viewId, DecisionRef(run, stage, ps[0].branch, decisionSeq))]
         + Bindings(run, stage, ps[1..], decisionSeq + 1)
  }

  /** Action i is handed `before` followed by the artifacts of actions 0 to i-1. */
  function Dispatches(stage: string, ps: seq<Action>, before: seq<string>): seq<RunEvent> {
    if ps == [] then []
    else [ActionDispatched(stage, ps[0].branch, before)] + Dispatches(stage, ps[1..], before + ps[0].artifacts)
  }

  function KeyAt(live: Exec, stage: string, ps: seq<Action>, i: nat): string
    requires i < |ps|
  {
    NodeKey(live.runId, stage, ps[i].branch, live.actionSeq + i)
  }

  ghost predicate AllClean(ps: seq<Action>) { forall i :: 0 <= i < |ps| ==> !Raises(ps[i]) }

  // ----- Logs -----

  /** The events of a run of actions, gates left out. */
  function Trail(run: string, stage: string, ps: seq<Action>, decisionSeq: nat): seq<KernelEvent> {
    if ps == [] then []
    else
      OpenLog(stage, ps[0]) + BodyLog(run, stage, ps[0], decisionSeq)
      + Trail(run, stage, ps[1..], decisionSeq + if Ok(ps[0]) then 1 else 0)
  }

  lemma Regroup<T>(a: seq<T>, b: seq<T>, c: seq<T>, d: seq<T>)
    ensures a + b + c + d == a + (b + c + d)
  {
  }

  /** One action that does not raise, as far as a projection and the decision counter go. */
  lemma CleanActionLog<T>(w: World, stage: string, a: Action, arts: seq<string>, f: KernelEvent -> seq<T>)
    requires !Raises(a) && forall g :: f(GateOpened(g)) == []
    ensures var r := Executed(w, stage, a, arts);
      && !r.raised && r.w.live.runId == w.live.runId
      && r.w.live.decisionSeq == w.live.decisionSeq + (if Ok(a) then 1 else 0)
      && Project(r.w.kernel, f) == Project(w.kernel, f) + Project(OpenLog(stage, a), f)
                                 + Project(BodyLog(w.live.runId, stage, a, w.live.decisionSeq), f)
  {
    hide Executed, OpenLog, BodyLog, Project, NodeKey, NodeAfter;
    ActionEffect(w, stage, a, arts);
    CleanAction(w, stage, a, arts);
    hide ActionLog;
    ActionLogProjects(w, stage, a, Executed(w, stage, a, arts).w.kernel, f);
  }

  lemma {:induction false} RunTrail<T>(w: World, stage: string, ps: seq<Action>, arts: seq<string>,
                                       f: KernelEvent -> seq<T>)
    requires AllClean(ps) && forall g :: f(GateOpened(g)) == []
    ensures Project(RunAll(w, stage, ps, arts).w.kernel, f)
         == Project(w.kernel, f) + Project(Trail(w.live.runId, stage, ps, w.live.decisionSeq), f)
    decreases |ps|
  {
    if ps == [] {
      assert Project(Trail(w.live.runId, stage, ps, w.live.decisionSeq), f) == [];
    } else {
      hide Executed, OpenLog, BodyLog, Project, Raises, Ok, RunAll, Trail;
      var r := Executed(w, stage, ps[0], arts);
      CleanActionLog(w, stage, ps[0], arts, f);
      RunAllStep(w, stage, ps, arts, r);
      RunTrail(r.w, stage, ps[1..], r.artifacts, f);
      var next := w.live.decisionSeq + if Ok(ps[0]) then 1 else 0;
      var rest := Trail(w.live.runId, stage, ps[1..], next);
      assert |Accepted([ps[0]])| == next - w.live.decisionSeq by { AcceptedSplit(ps); }
      TrailSplit(w.live.runId, stage, ps, w.live.decisionSeq);
      AppendOwn(w.live.runId, stage, ps[0], w.live.decisionSeq, rest, f);
      Regroup(Project(w.kernel, f), Project(OpenLog(stage, ps[0]), f),
              Project(BodyLog(w.live.runId, stage, ps[0], w.live.decisionSeq), f), Project(rest, f));
    }
  }

  /** The projections of two lists of events that make up one action. */
  ghost predicate Owns(run: string, stage: string, a: Action, n: nat, open: seq<KernelEvent>, body: seq<KernelEvent>) {
    && Project(open, OpenedOf) + Project(body, OpenedOf) == [(stage, a.branch)]
    && Project(open, EndedOf) + Project(body, EndedOf) == [(stage, a.branch)]
    && Project(open, SucceededOf) + Project(body, SucceededOf) == Branches(stage, Accepted([a]))
    && Project(open, BindingOf) + Project(body, BindingOf) == Bindings(run, stage, Accepted([a]), n)
  }

  lemma OwnOpening(stage: string, a: Action)
    requires a.openFault.OpenOk?
    ensures var open := OpenLog(stage, a);
      && Project(open, OpenedOf) == [(stage, a.branch)] && Project(open, EndedOf) == []
      && Project(open, SucceededOf) == [] && Project(open, BindingOf) == []
  {
    var e0, e1 := BranchOpened(stage, a.branch), BranchMarked(stage, a.branch, BranchActive);
    assert OpenLog(stage, a) == [e0] + [e1];
    hide Project;
    Split2(e0, e1, OpenedOf);
    Split2(e0, e1, EndedOf);
    Split2(e0, e1, SucceededOf);
    Split2(e0, e1, BindingOf);
  }

  lemma OwnAccepted(run: string, stage: string, a: Action, n: nat)
    requires a.bodyFault.BodyOk? && Ok(a)
    ensures var body := BodyLog(run, stage, a, n);
      && Project(body, OpenedOf) == [] && Project(body, EndedOf) == [(stage, a.branch)]
      && Project(body, SucceededOf) == [(stage, a.branch)]
      && Project(body, BindingOf) == [(a.viewId, DecisionRef(run, stage, a.branch, n))]
  {
    var e0, e1 := TaskViewRecorded(a.viewId), DecisionBound(a.viewId, DecisionRef(run, stage, a.branch, n));
    var e2 := BranchMarked(stage, a.branch, BranchSucceeded);
    assert BodyLog(run, stage, a, n) == [e0] + ([e1] + [e2]);
    hide Project, BodyLog;
    Split3(e0, e1, e2, OpenedOf);
    Split3(e0, e1, e2, EndedOf);
    Split3(e0, e1, e2, SucceededOf);
    Split3(e0, e1, e2, BindingOf);
  }

  lemma OwnRefused(run: string, stage: string, a: Action, n: nat)
    requires !Raises(a) && !Ok(a)
    ensures var body := BodyLog(run, stage, a, n);
      && Project(body, OpenedOf) == [] && Project(body, EndedOf) == [(stage, a.branch)]
      && Project(body, SucceededOf) == [] && Project(body, BindingOf) == []
  {
    var e := BodyLog(run, stage, a, n)[0];
    assert BodyLog(run, stage, a, n) == [e] && e.BranchMarked? && e.bmark.BranchFailed? && e.branch == a.branch
           && e.stage == stage;
    hide Project, BodyLog;
    Single(e, OpenedOf);
    Single(e, EndedOf);
    Single(e, SucceededOf);
    Single(e, BindingOf);
  }

  lemma OwnEvents(run: string, stage: string, a: Action, decisionSeq: nat)
    requires !Raises(a)
    ensures Owns(run, stage, a, decisionSeq, OpenLog(stage, a), BodyLog(run, stage, a, decisionSeq))
  {
    hide OpenLog, BodyLog, Project, DecisionRef;
    OwnOpening(stage, a);
    AcceptedHead(stage, a);
    if Ok(a) {
      OwnAccepted(run, stage, a, decisionSeq);
      assert [a][1..] == [];
      assert Bindings(run, stage, [a], decisionSeq)
          == [(a.viewId, DecisionRef(run, stage, a.branch, decisionSeq))] + Bindings(run, stage, [], decisionSeq + 1);
    } else {
      OwnRefused(run, stage, a, decisionSeq);
    }
  }

  lemma Single<T>(e: KernelEvent, f: KernelEvent -> seq<T>)
    ensures Project([e], f) == f(e)
  {
    assert [e][..0] == [];
  }

  lemma Split2<T>(e0: KernelEvent, e1: KernelEvent, f: KernelEvent -> seq<T>)
    ensures Project([e0] + [e1], f) == f(e0) + f(e1)
  {
    ProjectAppend([e0], [e1], f);
    Single(e0, f);
    Single(e1, f);
  }

  lemma Split3<T>(e0: KernelEvent, e1: KernelEvent, e2: KernelEvent, f: KernelEvent -> seq<T>)
    ensures Project([e0] + ([e1] + [e2]), f) == f(e0) + f(e1) + f(e2)
  {
    ProjectAppend([e0], [e1] + [e2], f);
    Split2(e1, e2, f);
    Single(e0, f);
  }

  lemma {:induction false} TrailOpened(run: string, stage: string, ps: seq<Action>, decisionSeq: nat)
    requires AllClean(ps)
    ensures Project(Trail(run, stage, ps, decisionSeq), OpenedOf) == Branches(stage, ps)
    decreases |ps|
  {
    hide OpenLog, BodyLog, Project, Raises;
    ProjectEmpty(OpenedOf);
    if ps != [] {
      TrailOpened(run, stage, ps[1..], decisionSeq + |Accepted([ps[0]])|);
      TrailOpenedStep(run, stage, ps, decisionSeq, decisionSeq + |Accepted([ps[0]])|);
    }
  }

  lemma TrailOpenedStep(run: string, stage: string, ps: seq<Action>, decisionSeq: nat, next: nat)
    requires ps != [] && !Raises(ps[0]) && next == decisionSeq + |Accepted([ps[0]])|
    requires Project(Trail(run, stage, ps[1..], next), OpenedOf) == Branches(stage, ps[1..])
    ensures Project(Trail(run, stage, ps, decisionSeq), OpenedOf) == Branches(stage, ps)
  {
    hide Raises, OpenLog, BodyLog, Project, Accepted, Trail;
    TrailSplit(run, stage, ps, decisionSeq);
    OwnEvents(run, stage, ps[0], decisionSeq);
    AppendOwn(run, stage, ps[0], decisionSeq, Trail(run, stage, ps[1..], next), OpenedOf);
  }

  lemma {:induction false} TrailEnded(run: string, stage: string, ps: seq<Action>, decisionSeq: nat)
    requires AllClean(ps)
    ensures Project(Trail(run, stage, ps, decisionSeq), EndedOf) == Branches(stage, ps)
    decreases |ps|
  {
    hide OpenLog, BodyLog, Project, Raises;
    ProjectEmpty(EndedOf);
    if ps != [] {
      TrailEnded(run, stage, ps[1..], decisionSeq + |Accepted([ps[0]])|);
      TrailEndedStep(run, stage, ps, decisionSeq, decisionSeq + |Accepted([ps[0]])|);
    }
  }

  lemma TrailEndedStep(run: string, stage: string, ps: seq<Action>, decisionSeq: nat, next: nat)
    requires ps != [] && !Raises(ps[0]) && next == decisionSeq + |Accepted([ps[0]])|
    requires Project(Trail(run, stage, ps[1..], next), EndedOf) == Branches(stage, ps[1..])
    ensures Project(Trail(run, stage, ps, decisionSeq), EndedOf) == Branches(stage, ps)
  {
    hide Raises, OpenLog, BodyLog, Project, Accepted, Trail;
    TrailSplit(run, stage, ps, decisionSeq);
    OwnEvents(run, stage, ps[0], decisionSeq);
    AppendOwn(run, stage, ps[0], decisionSeq, Trail(run, stage, ps[1..], next), EndedOf);
  }

  lemma {:induction false} TrailSuccesses(run: string, stage: string, ps: seq<Action>, decisionSeq: nat)
    requires AllClean(ps)
    ensures Project(Trail(run, stage, ps, decisionSeq), SucceededOf) == Branches(stage, Accepted(ps))
    decreases |ps|
  {
    hide OpenLog, BodyLog, Project, Raises;
    ProjectEmpty(SucceededOf);
    if ps != [] {
      TrailSuccesses(run, stage, ps[1..], decisionSeq + |Accepted([ps[0]])|);
      TrailSuccessesStep(run, stage, ps, decisionSeq, decisionSeq + |Accepted([ps[0]])|);
    }
  }

  lemma TrailSuccessesStep(run: string, stage: string, ps: seq<Action>, decisionSeq: nat, next: nat)
    requires ps != [] && !Raises(ps[0]) && next == decisionSeq + |Accepted([ps[0]])|
    requires Project(Trail(run, stage, ps[1..], next), SucceededOf) == Branches(stage, Accepted(ps[1..]))
    ensures Project(Trail(run, stage, ps, decisionSeq), SucceededOf) == Branches(stage, Accepted(ps))
  {
    hide Raises, OpenLog, BodyLog, Project, Accepted, Trail, Branches;
    TrailSplit(run, stage, ps, decisionSeq);
    OwnEvents(run, stage, ps[0], decisionSeq);
    AppendOwn(run, stage, ps[0], decisionSeq, Trail(run, stage, ps[1..], next), SucceededOf);
    AcceptedSplit(ps);
    BranchesAppend(stage, Accepted([ps[0]]), Accepted(ps[1..]));
  }

  lemma {:induction false} TrailBindings(run: string, stage: string, ps: seq<Action>, decisionSeq: nat)
    requires AllClean(ps)
    ensures Project(Trail(run, stage, ps, decisionSeq), BindingOf) == Bindings(run, stage, Accepted(ps), decisionSeq)
    decreases |ps|
  {
    hide OpenLog, BodyLog, Project, Raises;
    ProjectEmpty(BindingOf);
    if ps != [] {
      TrailBindings(run, stage, ps[1..], decisionSeq + |Accepted([ps[0]])|);
      TrailBindingsStep(run, stage, ps, decisionSeq, decisionSeq + |Accepted([ps[0]])|);
    }
  }

  lemma TrailBindingsStep(run: string, stage: string, ps: seq<Action>, decisionSeq: nat, next: nat)
    requires ps != [] && !Raises(ps[0]) && next == decisionSeq + |Accepted([ps[0]])|
    ensures Project(Trail(run, stage, ps[1..], next), BindingOf) == Bindings(run, stage, Accepted(ps[1..]), next)
        ==> Project(Trail(run, stage, ps, decisionSeq), BindingOf) == Bindings(run, stage, Accepted(ps), decisionSeq)
  {
    hide Raises, OpenLog, BodyLog, Project, Accepted, Trail, Bindings;
    TrailSplit(run, stage, ps, decisionSeq);
    OwnEvents(run, stage, ps[0], decisionSeq);
    AppendOwn(run, stage, ps[0], decisionSeq, Trail(run, stage, ps[1..], next), BindingOf);
    AcceptedSplit(ps);
    BindingsAppend(run, stage, Accepted([ps[0]]), Accepted(ps[1..]), decisionSeq);
  }

  lemma TrailSplit(run: string, stage: string, ps: seq<Action>, decisionSeq: nat)
    requires ps != []
    ensures Trail(run, stage, ps, decisionSeq) == OpenLog(stage, ps[0]) + BodyLog(run, stage, ps[0], decisionSeq)
              + Trail(run, stage, ps[1..], decisionSeq + |Accepted([ps[0]])|)
  {
    AcceptedSplit(ps);
  }

  lemma AppendOwn<T>(run: string, stage: string, a: Action, decisionSeq: nat, rest: seq<KernelEvent>,
                     f: KernelEvent -> seq<T>)
    ensures Project(OpenLog(stage, a) + BodyLog(run, stage, a, decisionSeq) + rest, f)
         == Project(OpenLog(stage, a), f) + Project(BodyLog(run, stage, a, decisionSeq), f) + Project(rest, f)
  {
    hide OpenLog, BodyLog, Project;
    ProjectAppend(OpenLog(stage, a) + BodyLog(run, stage, a, decisionSeq), rest, f);
    ProjectAppend(OpenLog(stage, a), BodyLog(run, stage, a, decisionSeq), f);
  }

  /** Over a run of actions that do not raise, the branches opened, the branches ended and
      the executed proposals are the same sequence; the branches marked succeeded are the
      accepted ones, each bound to one consecutively numbered decision. */
  lemma RunLogs(w: World, stage: string, ps: seq<Action>, arts: seq<string>)
    requires AllClean(ps)
    ensures var log := RunAll(w, stage, ps, arts).w.kernel;
      && Project(log, OpenedOf) == Project(w.kernel, OpenedOf) + Branches(stage, ps)
      && Project(log, EndedOf) == Project(w.kernel, EndedOf) + Branches(stage, ps)
      && Project(log, SucceededOf) == Project(w.kernel, SucceededOf) + Branches(stage, Accepted(ps))
      && Project(log, BindingOf)
         == Project(w.kernel, BindingOf) + Bindings(w.live.runId, stage, Accepted(ps), w.live.decisionSeq)
  {
    hide RunAll, Project, Trail, Branches, Bindings, Accepted;
    RunTrail(w, stage, ps, arts, OpenedOf);
    RunTrail(w, stage, ps, arts, EndedOf);
    RunTrail(w, stage, ps, arts, SucceededOf);
    RunTrail(w, stage, ps, arts, BindingOf);
    TrailOpened(w.live.runId, stage, ps, w.live.decisionSeq);
    TrailEnded(w.live.runId, stage, ps, w.live.decisionSeq);
    TrailSuccesses(w.live.runId, stage, ps, w.live.decisionSeq);
    TrailBindings(w.live.runId, stage, ps, w.live.decisionSeq);
  }

  lemma AcceptedSplit(ps: seq<Action>)
    requires ps != []
    ensures Accepted(ps) == Accepted([ps[0]]) + Accepted(ps[1..])
    ensures |Accepted([ps[0]])| == if Ok(ps[0]) then 1 else 0
  {
    var one := [ps[0]];
    assert one[1..] == [];
    assert Accepted(one) == (if Ok(ps[0]) then [ps[0]] else []) + Accepted([]);
  }

  lemma BranchesAppend(stage: string, ps: seq<Action>, qs: seq<Action>)
    requires |ps| <= 1
    ensures Branches(stage, ps + qs) == Branches(stage, ps) + Branches(stage, qs)
  {
    if ps == [] { assert ps + qs == qs; } else { assert (ps + qs)[1..] == qs; }
  }

  lemma BindingsAppend(run: string, stage: string, ps: seq<Action>, qs: seq<Action>, decisionSeq: nat)
    requires |ps| <= 1
    ensures Bindings(run, stage, ps + qs, decisionSeq)
         == Bindings(run, stage, ps, decisionSeq) + Bindings(run, stage, qs, decisionSeq + |ps|)
  {
    if ps == [] { assert ps + qs == qs; } else { assert (ps + qs)[1..] == qs; }
  }

  // ----- Counters, events and artifacts -----

  /** Counters advance by the number of actions, decisions by the number accepted; every
      action is handed the ordered concatenation of all earlier artifacts. */
  lemma {:induction false} RunCounters(w: World, stage: string, ps: seq<Action>, arts: seq<string>)
    requires AllClean(ps)
    ensures var r := RunAll(w, stage, ps, arts);
      && !r.raised
      && r.artifacts == arts + Artifacts(ps)
      && r.w.events == w.events + Dispatches(stage, ps, arts)
      && r.w.live.actionSeq == w.live.actionSeq + |ps|
      && r.w.live.totalBranches == w.live.totalBranches + |ps|
      && StageCount(r.w.live.stageBranches, stage) == StageCount(w.live.stageBranches, stage) + |ps|
      && r.w.live.decisionSeq == w.live.decisionSeq + |Accepted(ps)|
      && r.w.live.runId == w.live.runId && r.w.live.summaries == w.live.summaries
    decreases |ps|
  {
    hide Executed;
    if ps != [] {
      var r := Executed(w, stage, ps[0], arts);
      ActionEffect(w, stage, ps[0], arts);
      CleanAction(w, stage, ps[0], arts);
      RunAllStep(w, stage, ps, arts, r);
      RunCounters(r.w, stage, ps[1..], r.artifacts);
    }
  }

  /** The i-th dispatch carries the artifacts of all earlier actions, in order. */
  lemma {:induction false} DispatchAt(stage: string, ps: seq<Action>, before: seq<string>, i: nat)
    requires i < |ps|
    ensures |Dispatches(stage, ps, before)| == |ps|
    ensures Dispatches(stage, ps, before)[i] == ActionDispatched(stage, ps[i].branch, before + Artifacts(ps[..i]))
    decreases |ps|
  {
    if |ps| > 1 {
      DispatchAt(stage, ps[1..], before + ps[0].artifacts, if i == 0 then 0 else i - 1);
    }
    if i == 0 {
      assert ps[..0] == [];
    } else {
      assert ps[..i][1..] == ps[1..][..i - 1];
      assert before + ps[0].artifacts + Artifacts(ps[1..][..i - 1]) == before + Artifacts(ps[..i]);
    }
  }

  // ----- The DAG -----

  /** The node that an action which does not raise leaves. */
  function NodeOf(stage: string, a: Action): Node {
    Node(stage, a.branch, if Ok(a) then Succeeded else Failed)
  }

  /** Each action has its own node with its own outcome, and every other node is left as it
      was. */
  ghost predicate NodesSet(live: Exec, stage: string, ps: seq<Action>, before: map<string, Node>,
                           after: map<string, Node>)
  {
    && (forall i :: 0 <= i < |ps| ==>
          KeyAt(live, stage, ps, i) in after && after[KeyAt(live, stage, ps, i)] == NodeOf(stage, ps[i]))
    && (forall k :: (forall i :: 0 <= i < |ps| ==> k != KeyAt(live, stage, ps, i)) ==>
          (k in after <==> k in before) && (k in after ==> after[k] == before[k]))
  }

  lemma NodesStep(live: Exec, next: Exec, stage: string, ps: seq<Action>, before: map<string, Node>,
                  after: map<string, Node>)
    requires ps != [] && next.runId == live.runId && next.actionSeq == live.actionSeq + 1
    requires NodesSet(next, stage, ps[1..], before[KeyAt(live, stage, ps, 0) := NodeOf(stage, ps[0])], after)
    ensures NodesSet(live, stage, ps, before, after)
  {
    hide NodeKey, NodeOf;
    var rest, key0 := ps[1..], KeyAt(live, stage, ps, 0);
    assert forall i :: 0 <= i < |rest| ==> KeyAt(next, stage, rest, i) == KeyAt(live, stage, ps, i + 1);
    forall i | 0 <= i < |rest|
      ensures key0 != KeyAt(next, stage, rest, i)
    {
      if key0 == KeyAt(next, stage, rest, i) {
        NodeKeyCounter(live.runId, stage, ps[0].branch, live.actionSeq,
                       live.runId, stage, rest[i].branch, live.actionSeq + 1 + i);
      }
    }
    forall i | 0 <= i < |ps|
      ensures KeyAt(live, stage, ps, i) in after && after[KeyAt(live, stage, ps, i)] == NodeOf(stage, ps[i])
    {
      if i > 0 { assert KeyAt(live, stage, ps, i) == KeyAt(next, stage, rest, i - 1); }
    }
    forall k | forall i :: 0 <= i < |ps| ==> k != KeyAt(live, stage, ps, i)
      ensures (k in after <==> k in before) && (k in after ==> after[k] == before[k])
    {
      assert k != key0;
      assert forall i :: 0 <= i < |rest| ==> k != KeyAt(next, stage, rest, i);
    }
  }

  /** Each action owns its own node, which ends succeeded exactly when the action was
      accepted; every other node is left as it was. */
  lemma {:induction false} RunNodes(w: World, stage: string, ps: seq<Action>, arts: seq<string>)
    requires AllClean(ps)
    ensures NodesSet(w.live, stage, ps, w.live.dag, RunAll(w, stage, ps, arts).w.live.dag)
    decreases |ps|
  {
    hide Executed, NodesSet, Raises;
    if ps == [] {
      NothingSet(w.live, stage);
    } else {
      var r := Executed(w, stage, ps[0], arts);
      CleanActionNode(w, stage, ps[0], arts);
      RunAllStep(w, stage, ps, arts, r);
      RunNodes(r.w, stage, ps[1..], r.artifacts);
      NodesStep(w.live, r.w.live, stage, ps, w.live.dag, RunAll(w, stage, ps, arts).w.live.dag);
    }
  }

  lemma NothingSet(live: Exec, stage: string)
    ensures NodesSet(live, stage, [], live.dag, live.dag)
  {
    hide KeyAt;
  }

  lemma CleanActionNode(w: World, stage: string, a: Action, arts: seq<string>)
    requires !Raises(a)
    ensures var r := Executed(w, stage, a, arts);
      && !r.raised && r.w.live.runId == w.live.runId && r.w.live.actionSeq == w.live.actionSeq + 1
      && r.w.live.dag == w.live.dag[KeyOf(w.live, stage, a) := NodeOf(stage, a)]
  {
    hide Executed, NodeKey, ActionLog;
    ActionEffect(w, stage, a, arts);
    CleanAction(w, stage, a, arts);
  }

  // ----- Agreement, branch by branch -----

  ghost predicate DistinctBranches(ps: seq<Action>) {
    forall i, j :: 0 <= i < j < |ps| ==> ps[i].branch != ps[j].branch
  }

  lemma {:induction false} BranchListed(stage: string, qs: seq<Action>, b: string)
    ensures (stage, b) in Branches(stage, qs) <==> exists a :: a in qs && a.branch == b
    ensures DistinctBranches(qs) ==> multiset(Branches(stage, qs))[(stage, b)] <= 1
  {
    if qs != [] {
      var rest := qs[1..];
      BranchListed(stage, rest, b);
      assert qs == [qs[0]] + rest;
      if DistinctBranches(qs) && qs[0].branch == b {
        forall a | a in rest
          ensures a.branch != b
        {
          var j :| 0 <= j < |rest| && rest[j] == a;
          assert qs[j + 1] == a;
        }
      }
    }
  }

  lemma AcceptedHead(stage: string, a: Action)
    ensures Accepted([a]) == if Ok(a) then [a] else []
    ensures Branches(stage, Accepted([a])) == if Ok(a) then [(stage, a.branch)] else []
  {
    assert [a][1..] == [];
    assert [a] + [] == [a];
  }

  /** What the second list has beyond the length of the first. */
  function Beyond<T>(before: seq<T>, after: seq<T>): seq<T> {
    if |before| <= |after| then after[|before|..] else []
  }

  /** The binding is for a decision of this very branch. */
  ghost predicate Decides(binding: (string, string), run: string, stage: string, branch: string) {
    exists n :: binding.1 == DecisionRef(run, stage, branch, n)
  }

  /** Exactly one binding is for the branch, and it binds the given view. */
  ghost predicate DecidedOnce(bound: seq<(string, string)>, run: string, stage: string, branch: string, view: string) {
    exists k :: 0 <= k < |bound| && bound[k].0 == view && Decides(bound[k], run, stage, branch)
                && forall j :: 0 <= j < |bound| && j != k ==> !Decides(bound[j], run, stage, branch)
  }

  ghost predicate NeverDecided(bound: seq<(string, string)>, run: string, stage: string, branch: string) {
    forall k :: 0 <= k < |bound| ==> !Decides(bound[k], run, stage, branch)
  }

  /** The k-th binding is that of the k-th action. */
  lemma {:induction false} BindingAt(run: string, stage: string, qs: seq<Action>, d: nat, k: nat)
    requires k < |qs|
    ensures |Bindings(run, stage, qs, d)| == |qs|
    ensures Bindings(run, stage, qs, d)[k] == (qs[k].viewId, DecisionRef(run, stage, qs[k].branch, d + k))
    decreases |qs|
  {
    hide DecisionRef;
    if |qs| > 1 { BindingAt(run, stage, qs[1..], d + 1, if k == 0 then 0 else k - 1); }
  }

  lemma DecidesItsBranch(run: string, stage: string, qs: seq<Action>, d: nat, k: nat, branch: string)
    requires k < |qs| && k < |Bindings(run, stage, qs, d)|
    ensures Decides(Bindings(run, stage, qs, d)[k], run, stage, branch) <==> qs[k].branch == branch
  {
    hide DecisionRef;
    BindingAt(run, stage, qs, d, k);
    var binding := Bindings(run, stage, qs, d)[k];
    if Decides(binding, run, stage, branch) {
      var n :| binding.1 == DecisionRef(run, stage, branch, n);
      DecisionBranch(run, stage, branch, n, qs[k].branch, d + k);
    }
  }

  lemma {:induction false} AcceptedMembers(ps: seq<Action>)
    ensures forall a :: a in Accepted(ps) <==> a in ps && Ok(a)
    ensures DistinctBranches(ps) ==> DistinctBranches(Accepted(ps))
  {
    if ps != [] {
      var rest := ps[1..];
      AcceptedMembers(rest);
      assert ps == [ps[0]] + rest;
      var qs := Accepted(ps);
      if DistinctBranches(ps) && Ok(ps[0]) {
        assert qs == [ps[0]] + Accepted(rest);
        forall j | 1 <= j < |qs|
          ensures qs[0].branch != qs[j].branch
        {
          assert qs[j] in rest;
        }
      }
    }
  }

  /** The decisions of a run of actions, branch by branch. */
  lemma BranchDecided(run: string, stage: string, ps: seq<Action>, d: nat, i: nat)
    requires DistinctBranches(ps) && i < |ps|
    ensures var bound := Bindings(run, stage, Accepted(ps), d);
      if Ok(ps[i]) then DecidedOnce(bound, run, stage, ps[i].branch, ps[i].viewId)
      else NeverDecided(bound, run, stage, ps[i].branch)
  {
    hide Ok, Bindings, Decides, Accepted;
    var qs, branch := Accepted(ps), ps[i].branch;
    AcceptedMembers(ps);
    BindingCount(run, stage, qs, d);
    var bound := Bindings(run, stage, qs, d);
    forall k | 0 <= k < |qs|
      ensures Decides(bound[k], run, stage, branch) <==> qs[k] == ps[i]
      ensures bound[k].0 == qs[k].viewId
    {
      DecidesItsBranch(run, stage, qs, d, k, branch);
      BindingAt(run, stage, qs, d, k);
      assert qs[k] in ps;
    }
    if Ok(ps[i]) {
      assert ps[i] in qs;
      var k :| 0 <= k < |qs| && qs[k] == ps[i];
      assert Decides(bound[k], run, stage, branch);
    } else {
      forall k | 0 <= k < |bound|
        ensures !Decides(bound[k], run, stage, branch)
      {
        assert qs[k] in qs;
      }
    }
  }

  lemma MarkedOnce(stage: string, ps: seq<Action>, i: nat)
    requires DistinctBranches(ps) && i < |ps|
    ensures var marked := Branches(stage, Accepted(ps));
      && ((stage, ps[i].branch) in marked <==> Ok(ps[i]))
      && multiset(marked)[(stage, ps[i].branch)] <= 1
  {
    hide Ok, Accepted, Branches;
    AcceptedMembers(ps);
    BranchListed(stage, Accepted(ps), ps[i].branch);
    assert ps[i] in ps;
  }

  /** Between two worlds the i-th action's DAG node, its branch's marks and its decision agree:
      the node is succeeded exactly when the branch got its one SUCCEEDED mark and exactly
      one decision of its own, which binds the action's own task view; otherwise neither mark
      nor decision is for the branch. */
  ghost predicate BranchAgrees(w: World, v: World, stage: string, ps: seq<Action>, i: nat)
    requires i < |ps|
  {
    var marked := Beyond(Project(w.kernel, SucceededOf), Project(v.kernel, SucceededOf));
    var bound := Beyond(Project(w.kernel, BindingOf), Project(v.kernel, BindingOf));
    var key, branch := KeyAt(w.live, stage, ps, i), ps[i].branch;
    && key in v.live.dag
    && (v.live.dag[key].state == Succeeded <==> Ok(ps[i]))
    && multiset(marked)[(stage, branch)] == (if Ok(ps[i]) then 1 else 0)
    && (if Ok(ps[i]) then DecidedOnce(bound, w.live.runId, stage, branch, ps[i].viewId)
        else NeverDecided(bound, w.live.runId, stage, branch))
    && |bound| == |marked| == |Accepted(ps)|
  }

  /** Node, mark and decision agree for every action of a run whose branch ids are distinct. */
  lemma BranchNodeDecision(w: World, stage: string, ps: seq<Action>, arts: seq<string>, i: nat)
    requires AllClean(ps) && DistinctBranches(ps) && i < |ps|
    ensures BranchAgrees(w, RunAll(w, stage, ps, arts).w, stage, ps, i)
  {
    hide RunAll, Project, KeyAt, Raises, Accepted, Branches, Bindings, Ok, DecidedOnce, NeverDecided;
    RunLogs(w, stage, ps, arts);
    RunNodes(w, stage, ps, arts);
    MarkedOnce(stage, ps, i);
    BranchCount(stage, Accepted(ps));
    BindingCount(w.live.runId, stage, Accepted(ps), w.live.decisionSeq);
    BranchDecided(w.live.runId, stage, ps, w.live.decisionSeq, i);
    BeyondAppend(Project(w.kernel, SucceededOf), Branches(stage, Accepted(ps)));
    BeyondAppend(Project(w.kernel, BindingOf), Bindings(w.live.runId, stage, Accepted(ps), w.live.decisionSeq));
    CountOfMember(Branches(stage, Accepted(ps)), (stage, ps[i].branch));
  }

  lemma CountOfMember<T>(s: seq<T>, x: T)
    ensures x in s <==> multiset(s)[x] > 0
  {
  }

  lemma BeyondAppend<T>(before: seq<T>, more: seq<T>)
    ensures Beyond(before, before + more) == more
  {
  }

  lemma {:induction false} BranchCount(stage: string, ps: seq<Action>)
    ensures |Branches(stage, ps)| == |ps|
  {
    if ps != [] { BranchCount(stage, ps[1..]); }
  }

  lemma {:induction false} BindingCount(run: string, stage: string, ps: seq<Action>, decisionSeq: nat)
    ensures |Bindings(run, stage, ps, decisionSeq)| == |ps|
    decreases |ps|
  {
    if ps != [] { BindingCount(run, stage, ps[1..], decisionSeq + 1); }
  }

  // ----- One action in full, raising or not -----

  function ActiveOf(e: KernelEvent): seq<(string, string)> {
    if e.BranchMarked? && e.bmark.BranchActive? then [(e.stage, e.branch)] else []
  }

  function ReasonOf(e: KernelEvent): seq<string> {
    if e.BranchMarked? && e.bmark.BranchFailed? then [e.bmark.reason] else []
  }

  function ViewOf(e: KernelEvent): seq<string> { if e.TaskViewRecorded? then [e.view] else [] }

  /** At most three events project one after the other. */
  lemma {:induction false} Unrolled<T>(log: seq<KernelEvent>, f: KernelEvent -> seq<T>)
    requires |log| <= 3
    ensures Project(log, f)
         == (if |log| > 0 then f(log[0]) else []) + (if |log| > 1 then f(log[1]) else [])
            + if |log| > 2 then f(log[2]) else []
  {
    if log != [] { Unrolled(log[..|log| - 1], f); }
  }

  /** One more element, or none. */
  function Opt<T>(present: bool, x: T): seq<T> { if present then [x] else [] }

  /** How far the `try` body gets: to the branch's terminal mark, and past it. */
  predicate ReachesMark(a: Action) {
    && a.openFault.OpenOk? && !a.bodyFault.AtDispatch? && !a.bodyFault.AtScore? && !a.bodyFault.AtBranchMark?
    && (a.success ==> !a.bodyFault.AtVerdict?)
    && (Ok(a) ==> !a.bodyFault.AtTaskView? && !a.bodyFault.AtBind?)
  }

  /** It gets to the task view of an accepted action. */
  predicate ReachesView(a: Action) {
    && a.openFault.OpenOk? && Ok(a)
    && !a.bodyFault.AtDispatch? && !a.bodyFault.AtScore? && !a.bodyFault.AtVerdict? && !a.bodyFault.AtTaskView?
  }

  lemma OpeningTells(stage: string, a: Action)
    ensures var log, b := OpenLog(stage, a), (stage, a.branch);
      && Project(log, OpenedOf) == Opt(!a.openFault.AtOpenBranch?, b)
      && Project(log, ActiveOf) == Opt(a.openFault.OpenOk? || a.openFault.BeforeNode?, b)
      && Project(log, EndedOf) == [] && Project(log, ReasonOf) == [] && Project(log, BindingOf) == []
      && Project(log, ViewOf) == []
  {
    var log := OpenLog(stage, a);
    Unrolled(log, OpenedOf);
    Unrolled(log, ActiveOf);
    Unrolled(log, EndedOf);
    Unrolled(log, ReasonOf);
    Unrolled(log, BindingOf);
    Unrolled(log, ViewOf);
    hide Project;
  }

  lemma BodyMarks(run: string, stage: string, a: Action, n: nat)
    requires a.openFault.OpenOk?
    ensures var log, b := BodyLog(run, stage, a, n), (stage, a.branch);
      && Project(log, OpenedOf) == [] && Project(log, ActiveOf) == []
      && Project(log, EndedOf) == Opt(ReachesMark(a), b)
      && Project(log, ReasonOf)
         == Opt(ReachesMark(a) && !Ok(a), if a.success then "acceptance_rejected" else "harness_denied")
  {
    hide Project, DecisionRef;
    var log := BodyLog(run, stage, a, n);
    Unrolled(log, OpenedOf);
    Unrolled(log, ActiveOf);
    Unrolled(log, EndedOf);
    Unrolled(log, ReasonOf);
  }

  lemma BodyDecides(run: string, stage: string, a: Action, n: nat)
    requires a.openFault.OpenOk?
    ensures var log := BodyLog(run, stage, a, n);
      && Project(log, ViewOf) == Opt(ReachesView(a), a.viewId)
      && Project(log, BindingOf)
         == Opt(ReachesView(a) && !a.bodyFault.AtBind?, (a.viewId, DecisionRef(run, stage, a.branch, n)))
  {
    hide Project, DecisionRef;
    var log := BodyLog(run, stage, a, n);
    Unrolled(log, BindingOf);
    Unrolled(log, ViewOf);
  }

  /** Every action, raising anywhere or not: which branch events, task view and decision the
      kernel hears of, and in which state the action's node is left. */
  lemma ActionInFull(w: World, stage: string, a: Action, arts: seq<string>)
    ensures var r := Executed(w, stage, a, arts).w;
      var b := (stage, a.branch);
      && Project(r.kernel, OpenedOf) == Project(w.kernel, OpenedOf) + Opt(!a.openFault.AtOpenBranch?, b)
      && Project(r.kernel, ActiveOf)
         == Project(w.kernel, ActiveOf) + Opt(a.openFault.OpenOk? || a.openFault.BeforeNode?, b)
      && Project(r.kernel, EndedOf) == Project(w.kernel, EndedOf) + Opt(ReachesMark(a), b)
      && Project(r.kernel, ReasonOf) == Project(w.kernel, ReasonOf)
           + Opt(ReachesMark(a) && !Ok(a), if a.success then "acceptance_rejected" else "harness_denied")
      && Project(r.kernel, ViewOf) == Project(w.kernel, ViewOf) + Opt(ReachesView(a), a.viewId)
      && Project(r.kernel, BindingOf) == Project(w.kernel, BindingOf)
           + Opt(ReachesView(a) && !a.bodyFault.AtBind?,
                 (a.viewId, DecisionRef(w.live.runId, stage, a.branch, w.live.decisionSeq)))
  {
    hide Executed, OpenLog, BodyLog, Project, DecisionRef, NodeAfter, Raises, ReachesMark, ReachesView, NodeKey;
    ActionEffect(w, stage, a, arts);
    var log := Executed(w, stage, a, arts).w.kernel;
    OpeningTells(stage, a);
    if a.openFault.OpenOk? {
      BodyMarks(w.live.runId, stage, a, w.live.decisionSeq);
      BodyDecides(w.live.runId, stage, a, w.live.decisionSeq);
    } else {
      NotReached(a);
    }
    hide ActionLog;
    ActionLogProjects(w, stage, a, log, OpenedOf);
    ActionLogProjects(w, stage, a, log, ActiveOf);
    ActionLogProjects(w, stage, a, log, EndedOf);
    ActionLogProjects(w, stage, a, log, ReasonOf);
    ActionLogProjects(w, stage, a, log, ViewOf);
    ActionLogProjects(w, stage, a, log, BindingOf);
  }

  lemma NotReached(a: Action)
    requires !a.openFault.OpenOk?
    ensures !ReachesMark(a) && !ReachesView(a)
  {
  }

  /** The node of an action that got to its `try`: open when it raised before its result was
      scored, succeeded when it succeeded and was not refused, failed otherwise; and the
      decision counter counts the decisions made, bound or not. */
  lemma ActionNode(w: World, stage: string, a: Action, arts: seq<string>)
    ensures var r := Executed(w, stage, a, arts).w.live;
      var key := NodeKey(w.live.runId, stage, a.branch, w.live.actionSeq);
      && r.decisionSeq == w.live.decisionSeq + (if ReachesView(a) then 1 else 0)
      && (!a.openFault.OpenOk? ==> r.dag == w.live.dag)
      && (a.openFault.OpenOk? ==>
            && r.dag.Keys == w.live.dag.Keys + {key}
            && (forall k :: k in w.live.dag && k != key ==> r.dag[k] == w.live.dag[k])
            && r.dag[key].stage == stage && r.dag[key].branch == a.branch
            && (r.dag[key].state == Open <==> a.bodyFault.AtDispatch? || a.bodyFault.AtScore?)
            && (r.dag[key].state == Succeeded <==>
                  && a.success && (a.accepted || a.bodyFault.AtVerdict?)
                  && !a.bodyFault.AtDispatch? && !a.bodyFault.AtScore?)
            && r.dag[key].state != Pruned && r.dag[key].state != Expanded)
  {
    hide Executed, ActionLog, Raises, NodeKey;
    ActionEffect(w, stage, a, arts);
  }
}
