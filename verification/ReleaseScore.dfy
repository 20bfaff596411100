/** The release score calculator: cap rules, the lowest cap per tier, and the three scores.
    Scores are exact reals. */
module ReleaseScore {
  import opened Options
  import opened Firsts
  import opened Blocks
  import opened Strings
  import Identifiers

  // ----- Gates and evidence -----

  datatype GateValue =
    | NotAMapping
    | Gate(status: string, provenance: string, hasStale: bool, hasCurrentHead: bool, violations: string)

  /** A dictionary of gate results in insertion order. */
  type Gates = seq<(string, GateValue)>

  const ARCH_GATES: set<string> := {"observability_spine_completeness", "chaos_runtime_coupling"}

  datatype Tier = Engineering | SevenByTwentyFour | OtherTier(name: string)

  /** The conditions the calculator knows. `External` stands for those that read the
      repository or evidence files; any other name never matches. */
  datatype Condition =
    | DirtyWorktree | GateFail | ExpiredAllowlist | CleanEnvUnverified | T3Stale | T3Deferred
    | VerificationStale | GateMissing | GateWarn | T3ShapeVerified | PendingLow | PendingHigh
    | ExpiredAcceptedAsPass | NoticeInconsistency | ReleaseIdentityFail | ArtifactMissingAtHead
    | HeadMismatch | External(name: string) | Unknown(name: string)

  function NameOf(c: Condition): string {
    match c
    case DirtyWorktree => "dirty_worktree"
    case GateFail => "gate_fail"
    case ExpiredAllowlist => "expired_allowlist"
    case CleanEnvUnverified => "clean_env_unverified"
    case T3Stale => "t3_stale"
    case T3Deferred => "t3_deferred"
    case VerificationStale => "verification_stale"
    case GateMissing => "gate_missing"
    case GateWarn => "gate_warn"
    case T3ShapeVerified => "t3_shape_verified"
    case PendingLow => "multistatus_gates_pending_low"
    case PendingHigh => "multistatus_gates_pending_high"
    case ExpiredAcceptedAsPass => "expired_allowlist_accepted_as_pass"
    case NoticeInconsistency => "notice_inconsistency"
    case ReleaseIdentityFail => "release_identity_fail"
    case ArtifactMissingAtHead => "verification_artifact_missing_at_head"
    case HeadMismatch => "head_mismatch"
    case External(name) => name
    case Unknown(name) => name
  }

  /** `external` holds the factor texts of the conditions that read files, per condition and
      per whether architectural evidence is left out of the scan. */
  datatype Evidence = Evidence(
    gates: Gates, dirty: bool, t3Stale: bool, expired: nat, pending: nat,
    external: map<(Condition, bool), string>)

  function Lookup(gates: Gates, name: string): GateValue {
    if gates == [] then NotAMapping else if gates[0].0 == name then gates[0].1 else Lookup(gates[1..], name)
  }

  function StatusOf(gates: Gates, name: string): string {
    var g := Lookup(gates, name);
    if g.Gate? then g.status else "unknown"
  }

  /** The gates whose status is one of those wanted, in order. */
  function Named(gates: Gates, wanted: set<string>, leftOut: set<string>): seq<string> {
    if gates == [] then []
    else
      var (name, g) := gates[0];
      (if g.Gate? && g.status in wanted && name !in leftOut then [name] else []) + Named(gates[1..], wanted, leftOut)
  }

  function Joined(names: seq<string>): string {
    if names == [] then "" else if |names| == 1 then names[0] else names[0] + ", " + Joined(names[1..])
  }

  function Listed(prefix: string, names: seq<string>): Option<string> {
    if names == [] then None else Some(prefix + Joined(names))
  }

  function LeftOut(tier: Tier): set<string> { if tier.Engineering? then ARCH_GATES else {} }

  function When(b: bool, text: string): Option<string> { if b then Some(text) else None }

  /** The factor text of a condition that holds, None otherwise. */
  function Matches(ev: Evidence, tier: Tier, c: Condition): Option<string> {
    match c
    case DirtyWorktree => When(ev.dirty, "dirty_worktree")
    case GateFail => Listed("gate_fail: ", Named(ev.gates, {"fail"}, LeftOut(tier)))
    case ExpiredAllowlist => When(ev.expired > 0, "expired_allowlist_count=" + Identifiers.Decimal(ev.expired))
    case CleanEnvUnverified =>
      var st := StatusOf(ev.gates, "clean_env");
      When(st !in {"pass", "passed", "unknown"}, "clean_env_unverified: " + st)
    case T3Stale => When(ev.t3Stale && StatusOf(ev.gates, "t3_freshness") != "deferred", "t3_stale")
    case T3Deferred => When(StatusOf(ev.gates, "t3_freshness") == "deferred", "t3_deferred")
    case VerificationStale =>
      var va := Lookup(ev.gates, "verification_artifacts");
      When(va.Gate? && va.hasStale, "verification_stale")
    case GateMissing => Listed("gate_missing: ", Named(ev.gates, {"missing"}, LeftOut(tier)))
    case GateWarn => Listed("gate_warn/deferred: ", Named(ev.gates, {"warn", "deferred"}, LeftOut(tier)))
    case T3ShapeVerified =>
      var g := Lookup(ev.gates, "t3_freshness");
      if !g.Gate? then None
      else When(g.provenance in {"structural", "shape_verified"}, "t3_shape_verified: " + g.provenance)
    case PendingLow =>
      When(1 <= ev.pending <= 3, "multistatus_pending_low: defer_count=" + Identifiers.Decimal(ev.pending))
    case PendingHigh =>
      When(ev.pending >= 4, "multistatus_pending_high: defer_count=" + Identifiers.Decimal(ev.pending))
    case ExpiredAcceptedAsPass =>
      When(ev.expired > 0, "expired_allowlist_accepted_as_pass: " + Identifiers.Decimal(ev.expired))
    case NoticeInconsistency =>
      var id := Lookup(ev.gates, "release_identity");
      if StatusOf(ev.gates, "doc_consistency") == "fail" then Some("notice_inconsistency: doc_consistency=fail")
      else if id.Gate? then When(id.status == "fail", "notice_inconsistency: release_identity=fail " + id.violations)
      else None
    case ReleaseIdentityFail =>
      When(StatusOf(ev.gates, "release_identity") == "fail", "release_identity_fail: fail")
    case ArtifactMissingAtHead =>
      var va := Lookup(ev.gates, "verification_artifacts");
      var st := StatusOf(ev.gates, "verification_artifacts");
      When(st == "fail" || (va.Gate? && !va.hasCurrentHead), "verification_artifact_missing_at_head: " + st)
    case HeadMismatch => FromFiles(ev, tier, c)
    case External(_) => FromFiles(ev, tier, c)
    case Unknown(_) => None
  }

  function FromFiles(ev: Evidence, tier: Tier, c: Condition): Option<string> {
    var key := (c, tier.Engineering?);
    if key in ev.external then Some(ev.external[key]) else None
  }

  // ----- Rules -----

  /** An empty scope means all tiers; cap and factor label may be absent. */
  datatype Rule = Rule(condition: Condition, cap: Option<real>, factor: Option<string>, scope: seq<Tier>)

  datatype Line =
    | Header(c: Condition)
    | CapLine(value: real)
    | FactorLine(text: string)
    | ScopeLine(tiers: seq<Tier>)
    | OtherLine

  const IS_HEADER: Line -> bool := (l: Line) => l.Header?

  /** One field line. */
  function WithLine(r: Rule, line: Line): Rule {
    match line
    case CapLine(v) => r.(cap := Some(v))
    case FactorLine(text) => r.(factor := Some(text))
    case ScopeLine(tiers) => r.(scope := tiers)
    case _ => r
  }

  /** The fields of one block; the last line of a kind wins. */
  function Fold(block: seq<Line>): Rule
    requires block != [] && block[0].Header?
  {
    if |block| == 1 then Rule(block[0].c, None, None, [])
    else WithLine(Fold(block[..|block| - 1]), block[|block| - 1])
  }

  /** Line i is the last one of its kind in the block. */
  ghost predicate LastOfKind(block: seq<Line>, i: nat, kind: Line -> bool) {
    i < |block| && kind(block[i]) && forall j :: i < j < |block| ==> !kind(block[j])
  }

  const IS_CAP: Line -> bool := (l: Line) => l.CapLine?
  const IS_FACTOR: Line -> bool := (l: Line) => l.FactorLine?
  const IS_SCOPE: Line -> bool := (l: Line) => l.ScopeLine?

  /** A folded rule has its header's condition and, per field, the value of the last line of
      that kind; a field without such a line is absent. */
  lemma {:induction false} FoldMeaning(block: seq<Line>, i: nat)
    requires IsBlock(block, IS_HEADER) && i < |block|
    ensures var r := Fold(block);
      && r.condition == block[0].c
      && (LastOfKind(block, i, IS_CAP) ==> r.cap == Some(block[i].value))
      && (LastOfKind(block, i, IS_FACTOR) ==> r.factor == Some(block[i].text))
      && (LastOfKind(block, i, IS_SCOPE) ==> r.scope == block[i].tiers)
      && ((forall j :: 0 <= j < |block| ==> !IS_CAP(block[j])) ==> r.cap.None?)
      && ((forall j :: 0 <= j < |block| ==> !IS_FACTOR(block[j])) ==> r.factor.None?)
      && ((forall j :: 0 <= j < |block| ==> !IS_SCOPE(block[j])) ==> r.scope == [])
  {
    if |block| > 1 {
      FoldMeaning(block[..|block| - 1], if i < |block| - 1 then i else 0);
    }
  }

  /** One rule per block, each the fold of its block. */
  ghost predicate FoldsTo(blocks: seq<seq<Line>>, rules: seq<Rule>) {
    && AllBlocks(blocks, IS_HEADER) && |rules| == |blocks|
    && forall i :: 0 <= i < |blocks| ==> IsBlock(blocks[i], IS_HEADER) && rules[i] == Fold(blocks[i])
  }

  lemma FoldsToSnoc(blocks: seq<seq<Line>>, rules: seq<Rule>, block: seq<Line>)
    requires FoldsTo(blocks, rules) && IsBlock(block, IS_HEADER)
    ensures FoldsTo(blocks + [block], rules + [Fold(block)])
    ensures Flatten(blocks + [block]) == Flatten(blocks) + block
  {
    assert (blocks + [block])[..|blocks|] == blocks;
  }

  /** The single pass of the parser: it fills one record in place, stores it when the next
      header comes and once more at the end. The result is what cutting the lines from the
      first header on into blocks and folding each of them gives; BlocksUnique says that
      there is only one such cut. */
  method LoadScoreCaps(lines: seq<Line>) returns (rules: seq<Rule>)
    ensures exists blocks :: Flatten(blocks) == FromHeader(lines, IS_HEADER) && FoldsTo(blocks, rules)
  {
    rules := [];
    var current: Option<Rule> := None;
    ghost var done: seq<seq<Line>> := [];
    ghost var open: seq<Line> := [];
    for i := 0 to |lines|
      invariant FoldsTo(done, rules)
      invariant current.None? ==> open == [] && done == []
      invariant current.Some? ==> IsBlock(open, IS_HEADER) && current.value == Fold(open)
      invariant Flatten(done) + open == FromHeader(lines[..i], IS_HEADER)
    {
      var line := lines[i];
      FromHeaderSnoc(lines[..i], line, IS_HEADER);
      assert lines[..i + 1] == lines[..i] + [line];
      if line.Header? {
        if current.Some? {
          FoldsToSnoc(done, rules, open);
          rules, done := rules + [current.value], done + [open];
        }
        current, open := Some(Rule(line.c, None, None, [])), [line];
      } else if current.Some? {
        assert (open + [line])[..|open|] == open;
        current, open := Some(WithLine(current.value, line)), open + [line];
      }
    }
    assert lines[..|lines|] == lines;
    if current.Some? {
      FoldsToSnoc(done, rules, open);
      rules, done := rules + [current.value], done + [open];
    }
    assert Flatten(done) == FromHeader(lines, IS_HEADER);
  }

  predicate InScope(r: Rule, tier: Tier) { r.scope == [] || tier in r.scope }

  function OrElse(c: Option<real>, default: real): real { if c.Some? then c.value else default }

  predicate Fires(r: Rule, ev: Evidence, tier: Tier) { InScope(r, tier) && Matches(ev, tier, r.condition).Some? }

  /** Factor text and cap of every rule that fires, in rule order. A rule without a cap
      counts as 70. */
  function Hits(rules: seq<Rule>, ev: Evidence, tier: Tier): seq<(string, real)> {
    if rules == [] then []
    else
      var init, r := rules[..|rules| - 1], rules[|rules| - 1];
      Hits(init, ev, tier)
      + if Fires(r, ev, tier) then [(Matches(ev, tier, r.condition).value, OrElse(r.cap, 70.0))] else []
  }

  function Texts(hits: seq<(string, real)>): seq<string> { seq(|hits|, i requires 0 <= i < |hits| => hits[i].0) }

  function Least(hits: seq<(string, real)>): real
    requires hits != []
  {
    if |hits| == 1 then hits[0].1
    else
      var m := Least(hits[..|hits| - 1]);
      if hits[|hits| - 1].1 < m then hits[|hits| - 1].1 else m
  }

  datatype CapResult = RulesMissing | Uncapped | Capped(cap: real, factors: seq<string>)

  function CapOf(rules: seq<Rule>, ev: Evidence, tier: Tier): CapResult {
    var hits := Hits(rules, ev, tier);
    if rules == [] then RulesMissing
    else if hits == [] then Uncapped
    else Capped(Least(hits), Distinct(Texts(hits)))
  }

  function FactorsOf(r: CapResult): seq<string> { if r.Capped? then r.factors else [] }

  /** The rule loop, collecting new factor texts and all caps. */
  method ComputeCap(rules: seq<Rule>, ev: Evidence, tier: Tier) returns (r: CapResult)
    ensures r == CapOf(rules, ev, tier)
  {
    hide Matches;
    if rules == [] { return RulesMissing; }
    var factors: seq<string> := [];
    var lowest: Option<real> := None;
    ghost var hits: seq<(string, real)> := [];
    for i := 0 to |rules|
      invariant hits == Hits(rules[..i], ev, tier)
      invariant factors == Distinct(Texts(hits))
      invariant lowest == if hits == [] then None else Some(Least(hits))
    {
      assert rules[..i + 1][..i] == rules[..i];
      var rule := rules[i];
      var text := Matches(ev, tier, rule.condition);
      if InScope(rule, tier) && text.Some? {
        var cap := OrElse(rule.cap, 70.0);
        HitSnoc(hits, (text.value, cap));
        if text.value !in factors { factors := factors + [text.value]; }
        lowest := if lowest.Some? && lowest.value <= cap then lowest else Some(cap);
        hits := hits + [(text.value, cap)];
      }
    }
    assert rules[..|rules|] == rules;
    r := if lowest.None? then Uncapped else Capped(lowest.value, factors);
  }

  lemma HitSnoc(hits: seq<(string, real)>, hit: (string, real))
    ensures var more := hits + [hit];
      && Distinct(Texts(more))
         == (if hit.0 in Distinct(Texts(hits)) then Distinct(Texts(hits)) else Distinct(Texts(hits)) + [hit.0])
      && Least(more) == if hits == [] || hit.1 < Least(hits) then hit.1 else Least(hits)
  {
    var more := hits + [hit];
    assert more[..|hits|] == hits;
    assert Texts(more) == Texts(hits) + [hit.0];
    assert Texts(more)[..|hits|] == Texts(hits);
  }

  // ----- The lowest cap -----

  lemma {:induction false} HitsMeaning(rules: seq<Rule>, ev: Evidence, tier: Tier)
    ensures forall h :: h in Hits(rules, ev, tier) <==>
      exists r :: r in rules && Fires(r, ev, tier) && h == (Matches(ev, tier, r.condition).value, OrElse(r.cap, 70.0))
  {
    hide Matches;
    if rules != [] {
      var init, last := rules[..|rules| - 1], rules[|rules| - 1];
      HitsMeaning(init, ev, tier);
      assert rules == init + [last];
      forall h
        ensures h in Hits(rules, ev, tier) <==>
          exists r :: r in rules && Fires(r, ev, tier)
                      && h == (Matches(ev, tier, r.condition).value, OrElse(r.cap, 70.0))
      {
        if r :| r in init && Fires(r, ev, tier) && h == (Matches(ev, tier, r.condition).value, OrElse(r.cap, 70.0)) {
          assert r in rules;
        }
        if Fires(last, ev, tier) && h == (Matches(ev, tier, last.condition).value, OrElse(last.cap, 70.0)) {
          assert last in rules;
        }
      }
    }
  }

  lemma {:induction false} LeastMeaning(hits: seq<(string, real)>)
    requires hits != []
    ensures exists h :: h in hits && h.1 == Least(hits)
    ensures forall h :: h in hits ==> Least(hits) <= h.1
  {
    if |hits| == 1 {
      assert hits[0] in hits;
    } else {
      var init, last := hits[..|hits| - 1], hits[|hits| - 1];
      LeastMeaning(init);
      assert hits == init + [last];
      var h :| h in init && h.1 == Least(init);
      assert h in hits && last in hits;
    }
  }

  /** The cap is the minimum over the rules that are in scope and match, and one of them has
      it; without such a rule there is no cap. */
  lemma LowestCap(rules: seq<Rule>, ev: Evidence, tier: Tier)
    requires rules != []
    ensures var c := CapOf(rules, ev, tier);
      && (c.Capped? <==> exists r :: r in rules && Fires(r, ev, tier))
      && (c.Capped? ==>
            && (forall r :: r in rules && Fires(r, ev, tier) ==> c.cap <= OrElse(r.cap, 70.0))
            && (exists r :: r in rules && Fires(r, ev, tier) && c.cap == OrElse(r.cap, 70.0)))
  {
    hide Matches;
    HitsMeaning(rules, ev, tier);
    var hits := Hits(rules, ev, tier);
    if hits != [] {
      assert hits[0] in hits;
      LeastMeaning(hits);
    }
    forall r | r in rules && Fires(r, ev, tier)
      ensures hits != [] && Least(hits) <= OrElse(r.cap, 70.0)
    {
      assert (Matches(ev, tier, r.condition).value, OrElse(r.cap, 70.0)) in hits;
    }
  }

  /** The factors are the texts of the rules that fire, without duplicates, in the order in
      which they first matched. */
  lemma FactorsMeaning(rules: seq<Rule>, ev: Evidence, tier: Tier)
    ensures var f := FactorsOf(CapOf(rules, ev, tier));
      var texts := Texts(Hits(rules, ev, tier));
      && NoDuplicates(f)
      && (forall i, j :: 0 <= i < j < |f| ==>
            f[i] in texts && f[j] in texts && FirstIndex(texts, f[i]) < FirstIndex(texts, f[j]))
      && (forall t :: t in f <==>
            exists r :: r in rules && Fires(r, ev, tier) && Matches(ev, tier, r.condition) == Some(t))
  {
    hide Matches;
    var hits := Hits(rules, ev, tier);
    var texts := Texts(hits);
    DistinctMeaning(texts);
    HitsMeaning(rules, ev, tier);
    var f := FactorsOf(CapOf(rules, ev, tier));
    forall t
      ensures t in f <==> exists r :: r in rules && Fires(r, ev, tier) && Matches(ev, tier, r.condition) == Some(t)
    {
      if t in f {
        var i :| 0 <= i < |texts| && texts[i] == t;
        assert hits[i] in hits;
      }
      if r :| r in rules && Fires(r, ev, tier) && Matches(ev, tier, r.condition) == Some(t) {
        var h := (t, OrElse(r.cap, 70.0));
        assert h in hits;
        var i :| 0 <= i < |hits| && hits[i] == h;
        assert texts[i] == t;
      }
    }
  }

  // ----- Tier scores -----

  function Lower(x: real, y: real): real { if x < y then x else y }

  function TierScore(raw: real, c: CapResult): real { if c.Capped? then Lower(raw, c.cap) else raw }

  /** Adding rules, or making more conditions match, never raises a tier's score. */
  lemma ScoreMonotone(rules: seq<Rule>, more: seq<Rule>, ev: Evidence, worse: Evidence, tier: Tier, raw: real)
    requires rules != [] && forall r :: r in rules ==> r in more
    requires forall r :: r in rules && Matches(ev, tier, r.condition).Some? ==> Matches(worse, tier, r.condition).Some?
    ensures TierScore(raw, CapOf(more, worse, tier)) <= TierScore(raw, CapOf(rules, ev, tier))
  {
    hide Matches, CapOf;
    LowestCap(rules, ev, tier);
    assert rules[0] in more;
    LowestCap(more, worse, tier);
    var c := CapOf(rules, ev, tier);
    if c.Capped? {
      var r :| r in rules && Fires(r, ev, tier) && c.cap == OrElse(r.cap, 70.0);
      assert r in more && Fires(r, worse, tier);
    }
  }

  // ----- Raw score -----

  datatype Dimension = Dimension(weight: real, base: real)

  function Share(d: Dimension): real { d.weight * d.base / 100.0 }

  function Raw(dims: seq<Dimension>): real {
    if dims == [] then 0.0 else Raw(dims[..|dims| - 1]) + Share(dims[|dims| - 1])
  }

  function WeightSum(dims: seq<Dimension>): real {
    if dims == [] then 0.0 else WeightSum(dims[..|dims| - 1]) + dims[|dims| - 1].weight
  }

  method ComputeRaw(dims: seq<Dimension>) returns (total: real)
    ensures total == Raw(dims)
  {
    total := 0.0;
    for i := 0 to |dims|
      invariant total == Raw(dims[..i])
    {
      assert dims[..i + 1][..i] == dims[..i];
      total := total + dims[i].weight * dims[i].base / 100.0;
    }
    assert dims[..|dims|] == dims;
  }

  /** With base scores up to 100 the raw score lies between zero and the weight sum. */
  lemma {:induction false} RawRange(dims: seq<Dimension>)
    requires forall d :: d in dims ==> d.weight >= 0.0 && 0.0 <= d.base <= 100.0
    ensures 0.0 <= Raw(dims) <= WeightSum(dims)
    ensures WeightSum(dims) == 100.0 ==> 0.0 <= Raw(dims) <= 100.0
  {
    hide Share;
    if dims != [] {
      var init, d := dims[..|dims| - 1], dims[|dims| - 1];
      assert forall e :: e in init ==> e in dims;
      assert d in dims;
      RawRange(init);
      ShareRange(d);
    }
  }

  lemma ShareRange(d: Dimension)
    requires d.weight >= 0.0 && 0.0 <= d.base <= 100.0
    ensures 0.0 <= Share(d) <= d.weight
  {
    PartOf(d.weight, d.base);
    Hundredth(d.weight * d.base, d.weight);
  }

  lemma PartOf(w: real, b: real)
    requires w >= 0.0 && 0.0 <= b <= 100.0
    ensures 0.0 <= w * b <= w * 100.0
  {
  }

  lemma Hundredth(x: real, w: real)
    requires 0.0 <= x <= w * 100.0
    ensures 0.0 <= x / 100.0 <= w
  {
  }

  // ----- Architectural non-interference -----

  /** The gates without the architectural ones. */
  function Pruned(gates: Gates): Gates {
    if gates == [] then []
    else (if gates[0].0 in ARCH_GATES then [] else [gates[0]]) + Pruned(gates[1..])
  }

  lemma {:induction false} PrunedNamed(gates: Gates, wanted: set<string>)
    ensures Named(gates, wanted, ARCH_GATES) == Named(Pruned(gates), wanted, ARCH_GATES)
  {
    if gates != [] {
      PrunedNamed(gates[1..], wanted);
      assert [] + Pruned(gates[1..]) == Pruned(gates[1..]);
      assert ([gates[0]] + Pruned(gates[1..]))[1..] == Pruned(gates[1..]);
    }
  }

  lemma {:induction false} PrunedLookup(gates: Gates, name: string)
    requires name !in ARCH_GATES
    ensures Lookup(gates, name) == Lookup(Pruned(gates), name)
  {
    if gates != [] {
      PrunedLookup(gates[1..], name);
      assert [] + Pruned(gates[1..]) == Pruned(gates[1..]);
      assert ([gates[0]] + Pruned(gates[1..]))[1..] == Pruned(gates[1..]);
    }
  }

  /** For the engineering tier no condition looks at an architectural gate. */
  lemma MatchesIgnoresArch(ev: Evidence, other: Gates, c: Condition)
    requires Pruned(ev.gates) == Pruned(other)
    ensures Matches(ev, Engineering, c) == Matches(ev.(gates := other), Engineering, c)
  {
    hide Named, Lookup, Pruned;
    NamedSame(ev.gates, other, {"fail"});
    NamedSame(ev.gates, other, {"missing"});
    NamedSame(ev.gates, other, {"warn", "deferred"});
    LookupSame(ev.gates, other, "clean_env");
    LookupSame(ev.gates, other, "t3_freshness");
    LookupSame(ev.gates, other, "verification_artifacts");
    LookupSame(ev.gates, other, "doc_consistency");
    LookupSame(ev.gates, other, "release_identity");
  }

  lemma NamedSame(gates: Gates, other: Gates, wanted: set<string>)
    requires Pruned(gates) == Pruned(other)
    ensures Named(gates, wanted, ARCH_GATES) == Named(other, wanted, ARCH_GATES)
  {
    hide Named, Pruned;
    PrunedNamed(gates, wanted);
    PrunedNamed(other, wanted);
  }

  lemma LookupSame(gates: Gates, other: Gates, name: string)
    requires Pruned(gates) == Pruned(other) && name !in ARCH_GATES
    ensures Lookup(gates, name) == Lookup(other, name)
  {
    hide Lookup, Pruned;
    PrunedLookup(gates, name);
    PrunedLookup(other, name);
  }

  lemma {:induction false} HitsIgnoreArch(rules: seq<Rule>, ev: Evidence, other: Gates)
    requires Pruned(ev.gates) == Pruned(other)
    ensures Hits(rules, ev, Engineering) == Hits(rules, ev.(gates := other), Engineering)
  {
    hide Matches, Pruned;
    if rules != [] {
      MatchesIgnoresArch(ev, other, rules[|rules| - 1].condition);
      HitsIgnoreArch(rules[..|rules| - 1], ev, other);
    }
  }

  // ----- The conditional score -----

  const BLOCKERS: set<string> := {"head_mismatch", "dirty_worktree", "expired_allowlist"}

  /** Blockers are told by their name. */
  predicate IsBlocker(c: Condition) { NameOf(c) in BLOCKERS }

  predicate NamesBlocker(text: string) {
    Contains(text, "head_mismatch") || Contains(text, "dirty_worktree") || Contains(text, "expired_allowlist")
  }

  /** The conditional score calls the cap computation without the staleness and allowlist
      evidence; `dirty` is passed on once and cleared once. */
  function Relaxed(ev: Evidence, dirty: bool): Evidence { ev.(t3Stale := false, expired := 0, dirty := dirty) }

  function Label(r: Rule): string { if r.factor.Some? then r.factor.value else "" }

  /** The rule's condition or label occurs in one of the factor texts; scope plays no part. */
  predicate TextHit(r: Rule, factors: seq<string>) {
    exists f :: f in factors && (Contains(f, NameOf(r.condition)) || Contains(f, Label(r)))
  }

  /** The lowest cap of a non-blocker rule hit by text, 100 to start with. */
  function TextCap(rules: seq<Rule>, factors: seq<string>): real {
    if rules == [] then 100.0
    else
      var before, r := TextCap(rules[..|rules| - 1], factors), rules[|rules| - 1];
      if IsBlocker(r.condition) || !TextHit(r, factors) then before else Lower(before, OrElse(r.cap, 100.0))
  }

  predicate OnlyBlockers(factors: seq<string>) { forall f :: f in factors ==> NamesBlocker(f) }

  function Conditional(raw: real, rules: seq<Rule>, ev: Evidence): real {
    var factors := FactorsOf(CapOf(rules, Relaxed(ev, ev.dirty), Engineering));
    if OnlyBlockers(factors) then raw
    else
      var cap := TextCap(rules, FactorsOf(CapOf(rules, Relaxed(ev, false), Engineering)));
      if cap < 100.0 then Lower(raw, cap) else raw
  }

  method ComputeConditional(raw: real, rules: seq<Rule>, ev: Evidence) returns (score: real)
    ensures score == Conditional(raw, rules, ev)
  {
    hide Matches, CapOf, Contains;
    var first := ComputeCap(rules, Relaxed(ev, ev.dirty), Engineering);
    var nonBlocker := [];
    var factors := FactorsOf(first);
    for i := 0 to |factors|
      invariant nonBlocker == [] <==> forall j :: 0 <= j < i ==> NamesBlocker(factors[j])
    {
      if !NamesBlocker(factors[i]) { nonBlocker := nonBlocker + [factors[i]]; }
    }
    if nonBlocker == [] { return raw; }
    var second := ComputeCap(rules, Relaxed(ev, false), Engineering);
    var all := FactorsOf(second);
    var cap := 100.0;
    for i := 0 to |rules|
      invariant cap == TextCap(rules[..i], all)
    {
      assert rules[..i + 1][..i] == rules[..i];
      var r := rules[i];
      if IsBlocker(r.condition) { continue; }
      for k := 0 to |all|
        invariant cap == if TextHit(r, all[..k]) then Lower(TextCap(rules[..i], all), OrElse(r.cap, 100.0))
                         else TextCap(rules[..i], all)
      {
        HitMore(r, all, k);
        if Contains(all[k], NameOf(r.condition)) || Contains(all[k], Label(r)) {
          cap := Lower(cap, OrElse(r.cap, 100.0));
        }
      }
      assert all[..|all|] == all;
    }
    assert rules[..|rules|] == rules;
    return if cap < 100.0 then Lower(raw, cap) else raw;
  }

  lemma HitMore(r: Rule, all: seq<string>, k: nat)
    requires k < |all|
    ensures TextHit(r, all[..k + 1]) <==>
      TextHit(r, all[..k]) || Contains(all[k], NameOf(r.condition)) || Contains(all[k], Label(r))
  {
    hide Contains, NameOf, Label;
    assert all[..k + 1] == all[..k] + [all[k]];
    assert all[k] in all[..k + 1];
    if f :| f in all[..k] && (Contains(f, NameOf(r.condition)) || Contains(f, Label(r))) {
      assert f in all[..k + 1];
    }
  }

  datatype Scorecard = Scorecard(raw: real, verified: real, seven: real, conditional: real)

  /** All scores of a release; a missing rule table is an error. */
  method ComputeScore(dims: seq<Dimension>, rules: seq<Rule>, ev: Evidence) returns (s: Option<Scorecard>)
    ensures s == ScoreOf(dims, rules, ev)
    ensures s.None? <==> rules == []
  {
    hide CapOf, Conditional;
    var raw := ComputeRaw(dims);
    var cap := ComputeCap(rules, ev, Engineering);
    if rules == [] { return None; }
    var cap7 := ComputeCap(rules, ev, SevenByTwentyFour);
    var conditional := ComputeConditional(raw, rules, ev);
    s := Some(Scorecard(raw, TierScore(raw, cap), TierScore(raw, cap7), conditional));
  }

  function ScoreOf(dims: seq<Dimension>, rules: seq<Rule>, ev: Evidence): Option<Scorecard> {
    var raw := Raw(dims);
    if rules == [] then None
    else Some(Scorecard(raw, TierScore(raw, CapOf(rules, ev, Engineering)),
                        TierScore(raw, CapOf(rules, ev, SevenByTwentyFour)), Conditional(raw, rules, ev)))
  }

  /** Two gate maps that differ only on architectural gates give the engineering tier the same
      cap, the same factors, and the same verified and conditional scores. */
  lemma ArchNonInterference(dims: seq<Dimension>, rules: seq<Rule>, ev: Evidence, other: Gates)
    requires Pruned(ev.gates) == Pruned(other)
    ensures CapOf(rules, ev, Engineering) == CapOf(rules, ev.(gates := other), Engineering)
    ensures var s, t := ScoreOf(dims, rules, ev), ScoreOf(dims, rules, ev.(gates := other));
      && (s.None? <==> t.None?)
      && (s.Some? ==> s.value.verified == t.value.verified && s.value.conditional == t.value.conditional
                      && s.value.raw == t.value.raw)
  {
    hide Hits, Pruned, OnlyBlockers, TextCap;
    HitsIgnoreArch(rules, ev, other);
    HitsIgnoreArch(rules, Relaxed(ev, ev.dirty), other);
    HitsIgnoreArch(rules, Relaxed(ev, false), other);
    assert Relaxed(ev.(gates := other), ev.dirty) == Relaxed(ev, ev.dirty).(gates := other);
    assert Relaxed(ev.(gates := other), false) == Relaxed(ev, false).(gates := other);
  }
}
