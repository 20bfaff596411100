/** Run-scoped identifiers: decision references, gate references and DAG keys. */
module Identifiers {
  /** Decimal digits of n without leading zeros ("0" for zero), as Python's str(n). */
  function Decimal(n: nat): (r: string)
    ensures |r| > 0 && AllDigits(r)
  {
    if n < 10 then [Digit(n)] else Decimal(n / 10) + [Digit(n % 10)]
  }

  function Digit(d: nat): (r: char)
    requires d < 10
    ensures IsDigit(r)
  {
    '0' + (d as char)
  }

  predicate IsDigit(c: char) { '0' <= c <= '9' }

  predicate AllDigits(s: string) { forall i :: 0 <= i < |s| ==> IsDigit(s[i]) }

  /** The format specification `:03d`: at least three digits, zero padded on the left. */
  function Padded3(n: nat): (r: string)
    ensures |r| >= 3 && AllDigits(r)
  {
    var d := Decimal(n);
    if |d| >= 3 then d else if |d| == 2 then "0" + d else "00" + d
  }

  /** The number a digit string denotes. */
  function Value(s: string): nat
    requires AllDigits(s)
  {
    if s == "" then 0 else 10 * Value(s[..|s| - 1]) + (s[|s| - 1] - '0') as nat
  }

  lemma {:induction false} ValueOfDecimal(n: nat)
    ensures Value(Decimal(n)) == n
  {
    if n < 10 {
      assert Decimal(n)[..0] == "";
    } else {
      ValueOfDecimal(n / 10);
      var d := Decimal(n / 10);
      assert Decimal(n)[..|Decimal(n)| - 1] == d;
    }
  }

  lemma {:induction false} ValueIgnoresLeadingZero(s: string)
    requires AllDigits(s)
    ensures AllDigits("0" + s) && Value("0" + s) == Value(s)
  {
    var z := "0" + s;
    assert AllDigits(z);
    if s == "" {
      assert z[..0] == "";
    } else {
      ValueIgnoresLeadingZero(s[..|s| - 1]);
      assert z[..|z| - 1] == "0" + s[..|s| - 1];
    }
  }

  /** Padding is undone by reading the digits back, for every counter value, past 999 too. */
  lemma ValueOfPadded3(n: nat)
    ensures Value(Padded3(n)) == n
  {
    ValueOfDecimal(n);
    var d := Decimal(n);
    ValueIgnoresLeadingZero(d);
    ValueIgnoresLeadingZero("0" + d);
    assert "00" + d == "0" + ("0" + d);
  }

  /** A digit string after a non-digit is determined by the whole string. */
  lemma DigitSuffixUnique(p: string, q: string, x: string, y: string, c: char, d: char)
    requires !IsDigit(c) && !IsDigit(d) && AllDigits(x) && AllDigits(y)
    requires p + [c] + x == q + [d] + y
    ensures x == y && p == q
  {
    var s := p + [c] + x;
    assert s[|p|] == c && s[|q|] == d;
    assert forall i :: |p| < i < |s| ==> s[i] == x[i - |p| - 1];
    assert s == q + [d] + y;
    assert forall i :: |q| < i < |s| ==> s[i] == y[i - |q| - 1];
    assert |p| == |q|;
    assert p == s[..|p|] == s[..|q|] == q;
    assert x == s[|p| + 1..] == s[|q| + 1..] == y;
  }

  function DecisionRef(run: string, stage: string, branch: string, seqNo: nat): string {
    run + ":" + stage + ":" + branch + ":d" + Padded3(seqNo)
  }

  function GateRef(run: string, gateType: string, seqNo: nat): string {
    run + ":gate:" + gateType + ":" + Padded3(seqNo)
  }

  /** The parts that deterministic_id joins before hashing. The DAG is keyed by this
      pre-image, which is the DAG keyed by an injective hash of it. */
  function NodeKey(run: string, stage: string, branch: string, actionSeq: nat): string {
    run + "/" + stage + "/" + branch + "/" + Decimal(actionSeq)
  }

  // ----- References and their counters -----

  datatype RefKind = DecisionKind | GateKind

  /** A reference of the given kind and run that carries the counter n. */
  ghost predicate Carries(kind: RefKind, run: string, ref: string, n: nat) {
    match kind
    case DecisionKind => exists stage, branch :: ref == DecisionRef(run, stage, branch, n)
    case GateKind => exists gateType :: ref == GateRef(run, gateType, n)
  }

  lemma MadeRefsCarry(run: string, stage: string, branch: string, gateType: string, n: nat)
    ensures Carries(DecisionKind, run, DecisionRef(run, stage, branch, n), n)
    ensures Carries(GateKind, run, GateRef(run, gateType, n), n)
  {
  }

  /** What stands in front of the counter. */
  function Separator(kind: RefKind): char { if kind.DecisionKind? then 'd' else ':' }

  lemma CarriesSplit(kind: RefKind, run: string, ref: string, n: nat) returns (p: string)
    requires Carries(kind, run, ref, n)
    ensures ref == p + [Separator(kind)] + Padded3(n)
  {
    match kind
    case DecisionKind =>
      var stage, branch :| ref == DecisionRef(run, stage, branch, n);
      p := run + ":" + stage + ":" + branch + ":";
    case GateKind =>
      var gateType :| ref == GateRef(run, gateType, n);
      p := run + ":gate:" + gateType;
  }

  /** A reference tells its kind and its counter, whatever run, stage, branch or gate type it
      names; those parts may contain ':' and digits themselves. */
  lemma NumberUnique(ref: string, kind: RefKind, run: string, m: nat, other: RefKind, run': string, n: nat)
    requires Carries(kind, run, ref, m) && Carries(other, run', ref, n)
    ensures kind == other && m == n
  {
    var p := CarriesSplit(kind, run, ref, m);
    var q := CarriesSplit(other, run', ref, n);
    DigitSuffixUnique(p, q, Padded3(m), Padded3(n), Separator(kind), Separator(other));
    assert ref[|p|] == Separator(kind) && ref[|q|] == Separator(other);
    ValueOfPadded3(m);
    ValueOfPadded3(n);
  }

  /** Within one run and stage a decision reference tells its branch. */
  lemma DecisionBranch(run: string, stage: string, b: string, m: nat, c: string, n: nat)
    requires DecisionRef(run, stage, b, m) == DecisionRef(run, stage, c, n)
    ensures b == c && m == n
  {
    var head := run + ":" + stage + ":";
    var p, q := head + b + ":", head + c + ":";
    assert DecisionRef(run, stage, b, m) == p + ['d'] + Padded3(m);
    assert DecisionRef(run, stage, c, n) == q + ['d'] + Padded3(n);
    DigitSuffixUnique(p, q, Padded3(m), Padded3(n), 'd', 'd');
    assert b == p[|head|..|p| - 1] && c == q[|head|..|q| - 1];
    ValueOfPadded3(m);
    ValueOfPadded3(n);
  }

  ghost predicate CarriesBelow(kind: RefKind, run: string, ref: string, bound: nat) {
    exists m: nat :: m < bound && Carries(kind, run, ref, m)
  }

  /** Pairwise distinct references of one kind and run, all with counters below `bound`. */
  ghost predicate Issued(kind: RefKind, run: string, refs: seq<string>, bound: nat) {
    && (forall i :: 0 <= i < |refs| ==> CarriesBelow(kind, run, refs[i], bound))
    && (forall i, j :: 0 <= i < j < |refs| ==> refs[i] != refs[j])
  }

  lemma IssueNext(kind: RefKind, run: string, refs: seq<string>, bound: nat, ref: string)
    requires Issued(kind, run, refs, bound) && Carries(kind, run, ref, bound)
    ensures Issued(kind, run, refs + [ref], bound + 1)
  {
    hide Carries;
    IssuedBelowMore(kind, run, refs, bound, bound + 1);
    forall i | 0 <= i < |refs|
      ensures refs[i] != ref
    {
      assert CarriesBelow(kind, run, refs[i], bound);
      var m: nat :| m < bound && Carries(kind, run, refs[i], m);
      if refs[i] == ref { NumberUnique(ref, kind, run, m, kind, run, bound); }
    }
    assert CarriesBelow(kind, run, ref, bound + 1);
  }

  lemma IssuedBelowMore(kind: RefKind, run: string, refs: seq<string>, bound: nat, more: nat)
    requires Issued(kind, run, refs, bound) && bound <= more
    ensures Issued(kind, run, refs, more)
  {
    hide Carries;
    forall i | 0 <= i < |refs|
      ensures CarriesBelow(kind, run, refs[i], more)
    {
      assert CarriesBelow(kind, run, refs[i], bound);
    }
  }

  // ----- DAG keys -----

  lemma NodeKeyCounter(r0: string, s0: string, b0: string, n0: nat, r1: string, s1: string, b1: string, n1: nat)
    requires NodeKey(r0, s0, b0, n0) == NodeKey(r1, s1, b1, n1)
    ensures n0 == n1
  {
    var p0, p1 := r0 + "/" + s0 + "/" + b0, r1 + "/" + s1 + "/" + b1;
    assert NodeKey(r0, s0, b0, n0) == p0 + ['/'] + Decimal(n0);
    assert NodeKey(r1, s1, b1, n1) == p1 + ['/'] + Decimal(n1);
    DigitSuffixUnique(p0, p1, Decimal(n0), Decimal(n1), '/', '/');
    ValueOfDecimal(n0);
    ValueOfDecimal(n1);
  }

  // ----- Formats -----

  lemma PaddedSeven()
    ensures Padded3(7) == "007"
  {
    assert Decimal(7) == "7";
  }

  /** The formats on an example. */
  lemma Formats()
    ensures DecisionRef("r", "s", "b", 7) == "r:s:b:d007"
    ensures GateRef("r", "t", 7) == "r:gate:t:007"
  {
    hide Padded3;
    PaddedSeven();
  }
}
