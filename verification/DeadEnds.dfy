/** DAG keys and what they mean for dead-end detection over several attempts of a stage. */
module DeadEnds {
  import opened RunTypes
  import opened Identifiers
  import opened StageSpec
  import opened ActionProperties
  import opened BranchAgreement

  ghost predicate KeyBelow(key: string, bound: nat) {
    exists r, s, b: string, m: nat :: m < bound && key == NodeKey(r, s, b, m)
  }

  /** Every DAG key carries an action number below `bound`. */
  ghost predicate KeysBelow(dag: map<string, Node>, bound: nat) {
    forall k :: k in dag ==> KeyBelow(k, bound)
  }

  lemma NewKey(dag: map<string, Node>, run: string, stage: string, branch: string, n: nat, node: Node)
    requires KeysBelow(dag, n)
    ensures NodeKey(run, stage, branch, n) !in dag
    ensures KeysBelow(dag[NodeKey(run, stage, branch, n) := node], n + 1)
  {
    var key := NodeKey(run, stage, branch, n);
    if key in dag {
      assert KeyBelow(key, n);
      var r, s, b, m: nat :| m < n && key == NodeKey(r, s, b, m);
      NodeKeyCounter(r, s, b, m, run, stage, branch, n);
    }
    assert KeyBelow(key, n + 1);
    KeysBelowMore(dag, n, n + 1);
  }

  lemma KeysBelowMore(dag: map<string, Node>, bound: nat, more: nat)
    requires KeysBelow(dag, bound) && bound <= more
    ensures KeysBelow(dag, more)
  {
    forall k | k in dag
      ensures KeyBelow(k, more)
    {
      assert KeyBelow(k, bound);
      var r, s, b, m: nat :| m < bound && k == NodeKey(r, s, b, m);
      assert m < more && k == NodeKey(r, s, b, m);
    }
  }

  function KeyList(live: Exec, stage: string, ps: seq<Action>): seq<string> {
    seq(|ps|, i requires 0 <= i < |ps| => KeyAt(live, stage, ps, i))
  }

  /** The given keys are new, one entry each, and every older entry is left alone. */
  ghost predicate Adds<K, V>(before: map<K, V>, after: map<K, V>, keys: seq<K>) {
    && |after| == |before| + |keys|
    && (forall k :: k in before ==> k in after && after[k] == before[k])
    && (forall k :: k in keys ==> k !in before)
    && (forall k :: k in after ==> k in before || k in keys)
  }

  ghost predicate AddsKeys(before: Exec, after: Exec, stage: string, ps: seq<Action>) {
    Adds(before.dag, after.dag, KeyList(before, stage, ps)) && KeysBelow(after.dag, after.actionSeq)
  }

  /** A run of actions that do not raise adds exactly one new key per action. */
  lemma {:induction false} RunAddsKeys(w: World, stage: string, ps: seq<Action>, arts: seq<string>)
    requires AllClean(ps) && KeysBelow(w.live.dag, w.live.actionSeq)
    ensures AddsKeys(w.live, RunAll(w, stage, ps, arts).w.live, stage, ps)
    decreases |ps|
  {
    hide Executed, KeysBelow, Raises, KeyAt, KeyOf;
    if ps != [] {
      var r := Executed(w, stage, ps[0], arts);
      AddOneKey(w, stage, ps[0], arts);
      assert !r.raised by { ActionEffect(w, stage, ps[0], arts); }
      RunAllStep(w, stage, ps, arts, r);
      RunAddsKeys(r.w, stage, ps[1..], r.artifacts);
      AddsKeysStep(w.live, r.w.live, RunAll(r.w, stage, ps[1..], r.artifacts).w.live, stage, ps,
                   Node(stage, ps[0].branch, NodeAfter(ps[0])));
    }
  }

  lemma AddOneKey(w: World, stage: string, a: Action, arts: seq<string>)
    requires !Raises(a) && KeysBelow(w.live.dag, w.live.actionSeq)
    ensures var r := Executed(w, stage, a, arts).w.live;
      && r.runId == w.live.runId && r.actionSeq == w.live.actionSeq + 1
      && KeyOf(w.live, stage, a) !in w.live.dag
      && r.dag == w.live.dag[KeyOf(w.live, stage, a) := Node(stage, a.branch, NodeAfter(a))]
      && |r.dag| == |w.live.dag| + 1
      && KeysBelow(r.dag, r.actionSeq)
  {
    hide Executed, KeysBelow, OnlyGates;
    ActionEffect(w, stage, a, arts);
    NewKey(w.live.dag, w.live.runId, stage, a.branch, w.live.actionSeq, Node(stage, a.branch, NodeAfter(a)));
  }

  lemma AddsKeysStep(before: Exec, mid: Exec, after: Exec, stage: string, ps: seq<Action>, node: Node)
    requires ps != [] && mid.runId == before.runId && mid.actionSeq == before.actionSeq + 1
    requires KeyOf(before, stage, ps[0]) !in before.dag
    requires mid.dag == before.dag[KeyOf(before, stage, ps[0]) := node]
    requires AddsKeys(mid, after, stage, ps[1..])
    ensures AddsKeys(before, after, stage, ps)
  {
    var k0, rest := KeyOf(before, stage, ps[0]), KeyList(mid, stage, ps[1..]);
    KeyListSplit(before, mid, stage, ps);
    AddsOne(before.dag, mid.dag, after.dag, k0, node, rest);
  }

  lemma KeyListSplit(before: Exec, mid: Exec, stage: string, ps: seq<Action>)
    requires ps != [] && mid.runId == before.runId && mid.actionSeq == before.actionSeq + 1
    ensures KeyList(before, stage, ps) == [KeyOf(before, stage, ps[0])] + KeyList(mid, stage, ps[1..])
  {
    hide NodeKey;
  }

  lemma AddsOne<K, V>(before: map<K, V>, mid: map<K, V>, after: map<K, V>, k0: K, v: V, rest: seq<K>)
    requires k0 !in before && mid == before[k0 := v]
    requires Adds(mid, after, rest)
    ensures Adds(before, after, [k0] + rest)
  {
    assert mid.Keys == before.Keys + {k0};
  }

  predicate Hopeless(n: Node) { n.state == Pruned || n.state == Failed }

  /** After an attempt that did not raise, the stage is a dead end exactly when this attempt
      accepted nothing, every node that earlier attempts left for the stage is failed or
      pruned, and there is a node at all. In particular one node left open by an earlier
      raise hides the dead end of every later attempt. */
  lemma DeadEndAfter(w: World, stage: string, ps: seq<Action>, arts: seq<string>)
    requires AllClean(ps) && KeysBelow(w.live.dag, w.live.actionSeq)
    ensures var dag0 := w.live.dag;
      DeadEnd(RunAll(w, stage, ps, arts).w.live.dag, stage) <==>
        && Accepted(ps) == []
        && (forall k :: k in dag0 && dag0[k].stage == stage ==> Hopeless(dag0[k]))
        && (ps != [] || exists k :: k in dag0 && dag0[k].stage == stage)
  {
    hide RunAll, KeyAt, KeysBelow, DeadEnd, Accepted;
    RunAddsKeys(w, stage, ps, arts);
    RunNodes(w, stage, ps, arts);
    NoneAccepted(ps);
    var keys := KeyList(w.live, stage, ps);
    var dag := RunAll(w, stage, ps, arts).w.live.dag;
    DeadEndOf(w.live.dag, dag, keys, stage, ps);
  }

  lemma DeadEndOf(dag0: map<string, Node>, dag: map<string, Node>, keys: seq<string>, stage: string, ps: seq<Action>)
    requires |keys| == |ps|
    requires forall k :: k in dag0 ==> k in dag && dag[k] == dag0[k]
    requires forall k :: k in dag && k !in dag0 ==> k in keys
    requires forall i :: 0 <= i < |ps| ==>
      && keys[i] in dag
      && dag[keys[i]] == Node(stage, ps[i].branch, if Ok(ps[i]) then Succeeded else Failed)
    ensures DeadEnd(dag, stage) <==>
        && (forall i :: 0 <= i < |ps| ==> !Ok(ps[i]))
        && (forall k :: k in dag0 && dag0[k].stage == stage ==> Hopeless(dag0[k]))
        && (ps != [] || exists k :: k in dag0 && dag0[k].stage == stage)
  {
    hide Ok;
    if DeadEnd(dag, stage) {
      forall i | 0 <= i < |ps|
        ensures !Ok(ps[i])
      {
        assert dag[keys[i]].stage == stage;
      }
      if ps == [] {
        var k :| k in dag && dag[k].stage == stage;
        assert k in dag0;
      }
    } else if forall i :: 0 <= i < |ps| ==> !Ok(ps[i]) {
      if ps != [] { assert dag[keys[0]].stage == stage; }
      if k :| k in dag && dag[k].stage == stage && !Hopeless(dag[k]) {
        assert k !in keys;
      }
    }
  }

  lemma {:induction false} NoneAccepted(ps: seq<Action>)
    ensures Accepted(ps) == [] <==> forall i :: 0 <= i < |ps| ==> !Ok(ps[i])
  {
    if ps != [] {
      NoneAccepted(ps[1..]);
      assert forall i :: 1 <= i < |ps| ==> ps[i] == ps[1..][i - 1];
      if Accepted(ps[1..]) != [] {
        var i :| 0 <= i < |ps[1..]| && Ok(ps[1..][i]);
        assert Ok(ps[i + 1]);
      }
    }
  }

  // ----- Keys over arbitrary faults -----

  lemma NodeKeyTaken(dag: map<string, Node>, run: string, stage: string, branch: string, n: nat)
    requires NodeKey(run, stage, branch, n) in dag
    ensures !KeysBelow(dag, n)
  {
    var key := NodeKey(run, stage, branch, n);
    if KeysBelow(dag, n) {
      assert KeyBelow(key, n);
      var r, s, b, m: nat :| m < n && key == NodeKey(r, s, b, m);
      NodeKeyCounter(r, s, b, m, run, stage, branch, n);
    }
  }

  /** An action, raising or not, keeps all keys older than the counter exactly when it is
      counted if it opened its node. */
  lemma ActionKeys(w: World, stage: string, a: Action, arts: seq<string>)
    requires KeysBelow(w.live.dag, w.live.actionSeq)
    ensures var r := Executed(w, stage, a, arts).w.live;
      KeysBelow(r.dag, r.actionSeq) <==> (a.openFault.OpenOk? ==> Counts(a))
  {
    hide Executed, KeysBelow, ActionLog, Raises, NodeAfter, NodeKey;
    ActionEffect(w, stage, a, arts);
    var r := Executed(w, stage, a, arts).w.live;
    NewKey(w.live.dag, w.live.runId, stage, a.branch, w.live.actionSeq, Node(stage, a.branch, NodeAfter(a)));
    if a.openFault.OpenOk? && !Counts(a) {
      NodeKeyTaken(r.dag, w.live.runId, stage, a.branch, w.live.actionSeq);
    }
  }

  /** The loop ends at an admitted action that opens its node and is not counted. */
  predicate LeavesUncounted(cfg: Config, live: Exec, stage: string, ps: seq<Action>) {
    var k := FirstRaise(ps);
    k < |ps| && k < Admitted(cfg, live, stage, |ps|) && ps[k].openFault.OpenOk? && !Counts(ps[k])
  }

  /** Whatever raises, a loop keeps all keys older than the counter unless, and only unless, it
      ends at an action that opened its node without being counted. */
  lemma {:induction false} LoopKeys(cfg: Config, w: World, stage: string, ps: seq<Action>, arts: seq<string>)
    requires KeysBelow(w.live.dag, w.live.actionSeq)
    ensures var l := Loop(cfg, w, stage, ps, arts).w.live;
      KeysBelow(l.dag, l.actionSeq) <==> !LeavesUncounted(cfg, w.live, stage, ps)
    decreases |ps|
  {
    hide Executed, KeysBelow, ActionLog, BodyRaises, Admitted, NodeAfter, NodeKey;
    if ps == [] {
      return;
    }
    BudgetMeansAdmitted(cfg, w.live, stage, |ps|);
    if CheckBudget(cfg, w.live, stage).None? {
      var a := ps[0];
      var r := Executed(w, stage, a, arts);
      ActionEffect(w, stage, a, arts);
      ActionKeys(w, stage, a, arts);
      if !Raises(a) {
        AdmittedStep(cfg, w.live, r.w.live, stage, |ps|);
        LoopKeys(cfg, r.w, stage, ps[1..], r.artifacts);
      }
    }
  }

  /** After an uncounted action the next attempt of the same branch overwrites the node: the
      same key is used again. */
  lemma UncountedActionReusesKey(w: World, stage: string, a: Action, arts: seq<string>)
    requires a.openFault.OpenOk? && !Counts(a)
    ensures var r := Executed(w, stage, a, arts);
      && r.raised
      && KeyOf(r.w.live, stage, a) == KeyOf(w.live, stage, a)
      && KeyOf(w.live, stage, a) in r.w.live.dag
  {
    hide Executed, OnlyGates;
    ActionEffect(w, stage, a, arts);
  }
}
