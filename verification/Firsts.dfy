/** Removing duplicates while keeping the order of first appearance. */
module Firsts {
  function Distinct<T(==)>(s: seq<T>): seq<T> {
    if s == [] then []
    else
      var before, last := Distinct(s[..|s| - 1]), s[|s| - 1];
      if last in before then before else before + [last]
  }

  predicate NoDuplicates<T(==)>(s: seq<T>) { forall i, j :: 0 <= i < j < |s| ==> s[i] != s[j] }

  /** The position at which a value first appears. */
  function FirstIndex<T(==)>(s: seq<T>, x: T): (i: nat)
    requires x in s
    ensures i < |s| && s[i] == x && forall j :: 0 <= j < i ==> s[j] != x
  {
    if s[0] == x then 0 else 1 + FirstIndex(s[1..], x)
  }

  /** No duplicates, the same values, in the order of their first appearance. */
  lemma {:induction false} DistinctMeaning<T>(s: seq<T>)
    ensures var d := Distinct(s);
      && NoDuplicates(d)
      && (forall x :: x in d <==> x in s)
      && forall i, j :: 0 <= i < j < |d| ==> FirstIndex(s, d[i]) < FirstIndex(s, d[j])
  {
    if s != [] {
      var init, last := s[..|s| - 1], s[|s| - 1];
      DistinctMeaning(init);
      assert s == init + [last];
      var d := Distinct(s);
      forall x | x in init
        ensures FirstIndex(s, x) == FirstIndex(init, x)
      {
        SameFirstIndex(init, last, x);
      }
      assert last !in init ==> FirstIndex(s, last) == |init|;
    }
  }

  lemma SameFirstIndex<T>(init: seq<T>, last: T, x: T)
    requires x in init
    ensures FirstIndex(init + [last], x) == FirstIndex(init, x)
  {
    var i, j := FirstIndex(init + [last], x), FirstIndex(init, x);
    assert (init + [last])[j] == x;
    assert i <= j;
    assert init[i] == x;
  }

  /** The loop that appends what it has not seen. */
  method Dedupe<T(==)>(s: seq<T>) returns (unique: seq<T>)
    ensures unique == Distinct(s)
  {
    unique := [];
    for i := 0 to |s|
      invariant unique == Distinct(s[..i])
    {
      assert s[..i + 1][..i] == s[..i];
      if s[i] !in unique { unique := unique + [s[i]]; }
    }
    assert s[..|s|] == s;
  }
}
