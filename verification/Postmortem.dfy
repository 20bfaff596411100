/** Postmortem accounting: stage lists, branch counts, efficiency and failure codes. */
module Postmortem {
  import opened Options
  import opened RunTypes
  import opened Firsts

  datatype KernelStage = StageDone | StageBad | OtherState

  /** The kernel's final stage state decides; without one the summary's outcome does. */
  predicate CountsAsFailed(stage: string, kernel: map<string, KernelStage>, summaries: map<string, Summary>) {
    if stage in kernel && kernel[stage].StageBad? then true
    else if stage in kernel && kernel[stage].StageDone? then false
    else stage in summaries && summaries[stage].outcome == "failed"
  }

  function FailedTest(kernel: map<string, KernelStage>, summaries: map<string, Summary>): string -> bool {
    s => CountsAsFailed(s, kernel, summaries)
  }

  /** The elements on which the test has the wanted value, in order. */
  function Select<T>(s: seq<T>, test: T -> bool, wanted: bool): seq<T> {
    if s == [] then []
    else
      var last := s[|s| - 1];
      Select(s[..|s| - 1], test, wanted) + if test(last) == wanted then [last] else []
  }

  /** Selecting both ways splits a sequence in two, with every element exactly once. */
  lemma {:induction false} SelectPartitions<T>(s: seq<T>, test: T -> bool)
    ensures multiset(Select(s, test, true)) + multiset(Select(s, test, false)) == multiset(s)
    ensures forall x :: x in Select(s, test, true) <==> x in s && test(x)
    ensures forall x :: x in Select(s, test, false) <==> x in s && !test(x)
    ensures |Select(s, test, true)| + |Select(s, test, false)| == |s|
  {
    if s != [] {
      SelectPartitions(s[..|s| - 1], test);
      assert s == s[..|s| - 1] + [s[|s| - 1]];
    }
  }

  lemma SelectNothing<T>(test: T -> bool)
    ensures forall wanted :: Select([], test, wanted) == []
  {
  }

  lemma SelectSnoc<T>(s: seq<T>, i: nat, test: T -> bool, wanted: bool)
    requires i < |s|
    ensures Select(s[..i + 1], test, wanted)
         == Select(s[..i], test, wanted) + if test(s[i]) == wanted then [s[i]] else []
  {
    assert s[..i + 1][..i] == s[..i];
  }

  /** The stage loop: every summarised stage lands in exactly one of the two lists, failed
      ones in the second, both in the summaries' order. */
  method ClassifyStages(order: seq<string>, kernel: map<string, KernelStage>, summaries: map<string, Summary>)
    returns (completed: seq<string>, failed: seq<string>)
    ensures completed == Select(order, FailedTest(kernel, summaries), false)
    ensures failed == Select(order, FailedTest(kernel, summaries), true)
    ensures multiset(completed) + multiset(failed) == multiset(order)
    ensures forall s :: s in order ==> (s in failed <==> CountsAsFailed(s, kernel, summaries))
  {
    var test := FailedTest(kernel, summaries);
    hide Select;
    SelectNothing(test);
    completed, failed := [], [];
    for i := 0 to |order|
      invariant completed == Select(order[..i], test, false)
      invariant failed == Select(order[..i], test, true)
    {
      SelectSnoc(order, i, test, false);
      SelectSnoc(order, i, test, true);
      assert test(order[i]) == CountsAsFailed(order[i], kernel, summaries);
      if CountsAsFailed(order[i], kernel, summaries) {
        failed := failed + [order[i]];
      } else {
        completed := completed + [order[i]];
      }
    }
    assert order[..|order|] == order;
    SelectPartitions(order, test);
  }

  const IS_PRUNED: Node -> bool := (n: Node) => n.state == Pruned

  /** Explored counts every DAG node, pruned only those that were cut off. */
  method CountBranches(nodes: seq<Node>) returns (explored: nat, pruned: nat)
    ensures explored == |nodes| && pruned <= explored
    ensures pruned == |Select(nodes, IS_PRUNED, true)|
  {
    explored, pruned := 0, 0;
    for i := 0 to |nodes|
      invariant explored == i && pruned <= i
      invariant pruned == |Select(nodes[..i], IS_PRUNED, true)|
    {
      assert nodes[..i + 1][..i] == nodes[..i];
      explored := explored + 1;
      if nodes[i].state == Pruned { pruned := pruned + 1; }
    }
    assert nodes[..|nodes|] == nodes;
  }

  /** The non-empty failure codes among the raw records, in order. */
  function Codes(records: seq<Option<string>>): seq<string> {
    if records == [] then []
    else
      var last := records[|records| - 1];
      Codes(records[..|records| - 1]) + if last.Some? && last.value != "" then [last.value] else []
  }

  /** The collector's codes when it has any; otherwise the distinct recorded ones in the order
      in which they first appear. `collected` is None when there is no collector or it
      raises. */
  method FailureCodes(collected: Option<seq<string>>, records: seq<Option<string>>) returns (codes: seq<string>)
    ensures collected.Some? && collected.value != [] ==> codes == collected.value
    ensures collected.None? || collected.value == [] ==>
      && NoDuplicates(codes)
      && (forall c :: c in codes <==> c in Codes(records))
      && forall i, j :: 0 <= i < j < |codes| ==>
           FirstIndex(Codes(records), codes[i]) < FirstIndex(Codes(records), codes[j])
  {
    codes := if collected.Some? then collected.value else [];
    if codes != [] { return; }
    for i := 0 to |records|
      invariant codes == Distinct(Codes(records[..i]))
    {
      assert records[..i + 1][..i] == records[..i];
      assert Codes(records[..i]) + [] == Codes(records[..i]);
      var code := records[i];
      if code.Some? && code.value != "" {
        DistinctSnoc(Codes(records[..i]), code.value);
        if code.value !in codes { codes := codes + [code.value]; }
      }
    }
    assert records[..|records|] == records;
    DistinctMeaning(Codes(records));
  }

  lemma DistinctSnoc(s: seq<string>, x: string)
    ensures Distinct(s + [x]) == if x in Distinct(s) then Distinct(s) else Distinct(s) + [x]
  {
    assert (s + [x])[..|s|] == s;
  }

  /** The efficiency ratio, absent without stages or actions. The minimum with one that the
      source takes never matters. */
  function Efficiency(completed: nat, failed: nat, actionSeq: nat): (r: Option<real>)
    ensures r.Some? <==> completed + failed > 0 && actionSeq > 0
    ensures r.Some? ==> 0.0 <= r.value <= 1.0
    ensures r.Some? ==> r.value * Larger(actionSeq, completed + failed) as real == completed as real
  {
    var total := completed + failed;
    if total > 0 && actionSeq > 0 then
      var ratio := completed as real / Larger(actionSeq, total) as real;
      RatioBounds(completed as real, Larger(actionSeq, total) as real);
      Some(if ratio < 1.0 then ratio else 1.0)
    else None
  }

  function Larger(x: nat, y: nat): nat { if x < y then y else x }

  lemma RatioBounds(c: real, a: real)
    requires 0.0 <= c <= a && a > 0.0
    ensures 0.0 <= c / a <= 1.0 && c / a * a == c
  {
  }

  // ----- In terms of states and records -----

  /** A stage is listed as failed exactly when the kernel's final mark says FAILED, or says
      neither FAILED nor COMPLETED while the summary's outcome is "failed". */
  lemma FailedExact(stage: string, kernel: map<string, KernelStage>, summaries: map<string, Summary>)
    ensures var mark := if stage in kernel then kernel[stage] else OtherState;
      CountsAsFailed(stage, kernel, summaries) <==>
        mark == StageBad || (mark == OtherState && stage in summaries && summaries[stage].outcome == "failed")
  {
  }

  /** How many nodes are pruned, counted one by one. */
  lemma {:induction false} PrunedExact(a: seq<Node>, b: seq<Node>, n: Node)
    ensures |Select(a + b, IS_PRUNED, true)| == |Select(a, IS_PRUNED, true)| + |Select(b, IS_PRUNED, true)|
    ensures |Select([n], IS_PRUNED, true)| == if n.state == Pruned then 1 else 0
    decreases |b|
  {
    assert [n][..0] == [];
    if b == [] {
      assert a + b == a;
    } else {
      assert (a + b)[..|a + b| - 1] == a + b[..|b| - 1];
      PrunedExact(a, b[..|b| - 1], n);
    }
  }

  /** The codes are those of the records that have one which is not empty, in order. */
  lemma {:induction false} CodesExact(a: seq<Option<string>>, b: seq<Option<string>>, record: Option<string>)
    ensures Codes(a + b) == Codes(a) + Codes(b)
    ensures Codes([record]) == if record.Some? && |record.value| > 0 then [record.value] else []
    decreases |b|
  {
    assert [record][..0] == [];
    if b == [] {
      assert a + b == a;
    } else {
      assert (a + b)[..|a + b| - 1] == a + b[..|b| - 1];
      CodesExact(a, b[..|b| - 1], record);
    }
  }
}
