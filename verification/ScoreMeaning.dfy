/** What the parts of the score say in terms of gates, rules and dimensions: each condition, the
    texts it gives, the raw score and the scorecard. */
module ScoreMeaning {
  import opened Options
  import opened Strings
  import opened ReleaseScore
  import opened ScoreOrdering

  // ----- Gates -----

  /** Some gate outside the left-out ones has one of the given statuses. */
  ghost predicate SomeGate(gates: Gates, tier: Tier, statuses: set<string>) {
    exists name, g :: (name, g) in gates && GateCounts(name, g, tier, statuses)
  }

  /** For the engineering tier the two architectural gates do not count. */
  predicate GateCounts(name: string, g: GateValue, tier: Tier, statuses: set<string>) {
    && g.Gate? && g.status in statuses
    && (tier.Engineering? ==> name != "observability_spine_completeness" && name != "chaos_runtime_coupling")
  }

  lemma {:induction false} NamedMeaning(gates: Gates, tier: Tier, statuses: set<string>)
    ensures forall name :: name in Named(gates, statuses, LeftOut(tier)) <==>
      exists g :: (name, g) in gates && GateCounts(name, g, tier, statuses)
  {
    if gates != [] {
      var rest := gates[1..];
      NamedMeaning(rest, tier, statuses);
      assert gates == [gates[0]] + rest;
      forall name
        ensures name in Named(gates, statuses, LeftOut(tier)) <==>
          exists g :: (name, g) in gates && GateCounts(name, g, tier, statuses)
      {
        if g :| (name, g) in rest && GateCounts(name, g, tier, statuses) { assert (name, g) in gates; }
        if GateCounts(gates[0].0, gates[0].1, tier, statuses) { assert (gates[0].0, gates[0].1) in gates; }
      }
    }
  }

  lemma ListedMeaning(gates: Gates, tier: Tier, statuses: set<string>, prefix: string)
    ensures Listed(prefix, Named(gates, statuses, LeftOut(tier))).Some? <==> SomeGate(gates, tier, statuses)
  {
    hide GateCounts, Named, Joined, LeftOut;
    NamedMeaning(gates, tier, statuses);
    var names := Named(gates, statuses, LeftOut(tier));
    if names != [] { assert names[0] in names; }
    if SomeGate(gates, tier, statuses) {
      var name, g :| (name, g) in gates && GateCounts(name, g, tier, statuses);
      assert name in names;
    }
  }

  ghost predicate DistinctNames(gates: Gates) {
    forall i, j :: 0 <= i < j < |gates| ==> gates[i].0 != gates[j].0
  }

  /** Looking a gate up finds its entry, and nothing when there is none. */
  lemma {:induction false} LookupMeaning(gates: Gates, name: string, i: nat)
    requires DistinctNames(gates)
    ensures i < |gates| && gates[i].0 == name ==> Lookup(gates, name) == gates[i].1
    ensures (forall j :: 0 <= j < |gates| ==> gates[j].0 != name) ==> Lookup(gates, name) == NotAMapping
    decreases |gates|
  {
    if gates != [] {
      assert forall j :: 0 <= j < |gates[1..]| ==> gates[1..][j] == gates[j + 1];
      LookupMeaning(gates[1..], name, if i == 0 then 0 else i - 1);
    }
  }

  /** Whether a condition holds, in terms of the evidence. */
  ghost predicate Holds(ev: Evidence, tier: Tier, c: Condition) {
    var t3, env, artifacts := Lookup(ev.gates, "t3_freshness"), Lookup(ev.gates, "clean_env"),
                              Lookup(ev.gates, "verification_artifacts");
    var doc, identity := Lookup(ev.gates, "doc_consistency"), Lookup(ev.gates, "release_identity");
    var deferred := t3.Gate? && t3.status == "deferred";
    match c
    case DirtyWorktree => ev.dirty
    case GateFail => SomeGate(ev.gates, tier, {"fail"})
    case GateMissing => SomeGate(ev.gates, tier, {"missing"})
    case GateWarn => SomeGate(ev.gates, tier, {"warn", "deferred"})
    case ExpiredAllowlist => ev.expired > 0
    case ExpiredAcceptedAsPass => ev.expired > 0
    case CleanEnvUnverified =>
      env.Gate? && env.status != "pass" && env.status != "passed" && env.status != "unknown"
    case T3Stale => ev.t3Stale && !deferred
    case T3Deferred => deferred
    case T3ShapeVerified => t3.Gate? && (t3.provenance == "structural" || t3.provenance == "shape_verified")
    case VerificationStale => artifacts.Gate? && artifacts.hasStale
    case ArtifactMissingAtHead => artifacts.Gate? && (artifacts.status == "fail" || !artifacts.hasCurrentHead)
    case PendingLow => ev.pending == 1 || ev.pending == 2 || ev.pending == 3
    case PendingHigh => ev.pending > 3
    case NoticeInconsistency => (doc.Gate? && doc.status == "fail") || (identity.Gate? && identity.status == "fail")
    case ReleaseIdentityFail => identity.Gate? && identity.status == "fail"
    case HeadMismatch => (c, tier.Engineering?) in ev.external
    case External(_) => (c, tier.Engineering?) in ev.external
    case Unknown(_) => false
  }

  predicate ListsGates(c: Condition) { c.GateFail? || c.GateMissing? || c.GateWarn? }

  predicate ReadsStatus(c: Condition) {
    c.CleanEnvUnverified? || c.T3Stale? || c.T3Deferred? || c.NoticeInconsistency? || c.ReleaseIdentityFail?
    || c.ArtifactMissingAtHead?
  }

  lemma ListingMatches(ev: Evidence, tier: Tier, c: Condition)
    requires ListsGates(c)
    ensures Matches(ev, tier, c).Some? <==> Holds(ev, tier, c)
  {
    hide Named, SomeGate, LeftOut, Joined, Listed, Lookup, StatusOf;
    ListedMeaning(ev.gates, tier, {"fail"}, "gate_fail: ");
    ListedMeaning(ev.gates, tier, {"missing"}, "gate_missing: ");
    ListedMeaning(ev.gates, tier, {"warn", "deferred"}, "gate_warn/deferred: ");
  }

  lemma StatusMatches(ev: Evidence, tier: Tier, c: Condition)
    requires ReadsStatus(c)
    ensures Matches(ev, tier, c).Some? <==> Holds(ev, tier, c)
  {
    hide Named, Lookup, SomeGate, LeftOut, Joined, Listed;
    assert |"unknown"| == 7 && |"fail"| == 4 && |"deferred"| == 8;
  }

  /** A rule's condition matches exactly when it holds. */
  lemma MatchesExact(ev: Evidence, tier: Tier, c: Condition)
    ensures Matches(ev, tier, c).Some? <==> Holds(ev, tier, c)
  {
    if ListsGates(c) {
      ListingMatches(ev, tier, c);
    } else if ReadsStatus(c) {
      StatusMatches(ev, tier, c);
    } else {
      hide Named, Lookup, SomeGate, LeftOut, Joined, Listed, StatusOf;
    }
  }

  // ----- Factor texts -----

  lemma AtStart(text: string, part: string, rest: string)
    requires text == part + rest
    ensures Contains(text, part)
  {
    assert OccursAt(text, part, 0);
  }

  /** Every listed gate can be read in the text, and so can the text's own beginning. */
  lemma {:induction false} JoinedContains(prefix: string, names: seq<string>, name: string)
    requires name in names
    ensures Contains(prefix + Joined(names), name)
    decreases |names|
  {
    var text := prefix + Joined(names);
    if names[0] == name {
      assert text[|prefix|..|prefix| + |name|] == name;
      assert OccursAt(text, name, |prefix|);
    } else {
      var more := prefix + names[0] + ", ";
      JoinedContains(more, names[1..], name);
      assert more + Joined(names[1..]) == text;
    }
  }

  /** Names are separated by a comma and a space. */
  lemma {:induction false} JoinedExact(names: seq<string>, last: string)
    ensures Joined(names + [last]) == if names == [] then last else Joined(names) + ", " + last
    decreases |names|
  {
    if |names| == 1 {
      assert (names + [last])[1..] == [last];
    } else if names != [] {
      assert (names + [last])[1..] == names[1..] + [last];
      JoinedExact(names[1..], last);
    }
  }

  /** Of the texts that list gates: each of them names exactly the gates that count. */
  lemma TextNamesGates(ev: Evidence, tier: Tier, name: string, g: GateValue)
    requires (name, g) in ev.gates
    ensures GateCounts(name, g, tier, {"fail"}) ==>
      Matches(ev, tier, GateFail).Some? && Contains(Matches(ev, tier, GateFail).value, name)
    ensures GateCounts(name, g, tier, {"missing"}) ==>
      Matches(ev, tier, GateMissing).Some? && Contains(Matches(ev, tier, GateMissing).value, name)
    ensures GateCounts(name, g, tier, {"warn", "deferred"}) ==>
      Matches(ev, tier, GateWarn).Some? && Contains(Matches(ev, tier, GateWarn).value, name)
  {
    hide Named, Joined, Contains, LeftOut;
    ListedContains(ev.gates, tier, {"fail"}, "gate_fail: ", name, g);
    ListedContains(ev.gates, tier, {"missing"}, "gate_missing: ", name, g);
    ListedContains(ev.gates, tier, {"warn", "deferred"}, "gate_warn/deferred: ", name, g);
  }

  lemma ListedContains(gates: Gates, tier: Tier, statuses: set<string>, prefix: string, name: string, g: GateValue)
    requires (name, g) in gates
    ensures GateCounts(name, g, tier, statuses) ==>
      var text := Listed(prefix, Named(gates, statuses, LeftOut(tier)));
      text.Some? && Contains(text.value, name)
  {
    hide Named, Joined, Contains, LeftOut;
    if GateCounts(name, g, tier, statuses) {
      NamedMeaning(gates, tier, statuses);
      JoinedContains(prefix, Named(gates, statuses, LeftOut(tier)), name);
    }
  }

  /** How the text of a condition that reads no files goes on behind the condition's name; the
      two about pending gates are worded differently. */
  function Continuation(ev: Evidence, tier: Tier, c: Condition): string {
    match c
    case GateFail => ": " + Joined(Named(ev.gates, {"fail"}, LeftOut(tier)))
    case GateMissing => ": " + Joined(Named(ev.gates, {"missing"}, LeftOut(tier)))
    case GateWarn => "/deferred: " + Joined(Named(ev.gates, {"warn", "deferred"}, LeftOut(tier)))
    case ExpiredAllowlist => "_count=" + Identifiers.Decimal(ev.expired)
    case ExpiredAcceptedAsPass => ": " + Identifiers.Decimal(ev.expired)
    case CleanEnvUnverified => ": " + StatusOf(ev.gates, "clean_env")
    case ReleaseIdentityFail => ": fail"
    case ArtifactMissingAtHead => ": " + StatusOf(ev.gates, "verification_artifacts")
    case _ => ""
  }

  predicate PlainlyNamed(c: Condition) {
    || c.GateFail? || c.GateMissing? || c.GateWarn? || c.ExpiredAllowlist? || c.ExpiredAcceptedAsPass?
    || c.CleanEnvUnverified? || c.ReleaseIdentityFail? || c.ArtifactMissingAtHead? || c.DirtyWorktree?
    || c.T3Stale? || c.T3Deferred? || c.VerificationStale?
  }

  lemma ListingText(ev: Evidence, tier: Tier, c: Condition)
    requires ListsGates(c) && Matches(ev, tier, c).Some?
    ensures Matches(ev, tier, c).value == NameOf(c) + Continuation(ev, tier, c)
  {
    hide Named, Lookup, StatusOf, LeftOut, Joined;
  }

  lemma Prefixes()
    ensures "expired_allowlist_count=" == "expired_allowlist" + "_count="
    ensures "clean_env_unverified: " == "clean_env_unverified" + ": "
    ensures "release_identity_fail: fail" == "release_identity_fail" + ": fail"
  {
  }

  lemma LongPrefix()
    ensures "expired_allowlist_accepted_as_pass: " == "expired_allowlist_accepted_as_pass" + ": "
  {
  }

  lemma LongerPrefix()
    ensures "verification_artifact_missing_at_head: " == "verification_artifact_missing_at_head" + ": "
  {
  }

  lemma Regrouped(prefix: string, name: string, more: string, rest: string)
    requires prefix == name + more
    ensures prefix + rest == name + (more + rest)
  {
  }

  lemma CountText(ev: Evidence, tier: Tier, c: Condition)
    requires (c.ExpiredAllowlist? || c.ExpiredAcceptedAsPass?) && Matches(ev, tier, c).Some?
    ensures Matches(ev, tier, c).value == NameOf(c) + Continuation(ev, tier, c)
  {
    hide Named, Lookup, StatusOf, LeftOut, Joined, Listed;
    var count := Identifiers.Decimal(ev.expired);
    if c.ExpiredAllowlist? {
      Prefixes();
      Regrouped("expired_allowlist_count=", "expired_allowlist", "_count=", count);
    } else {
      LongPrefix();
      Regrouped("expired_allowlist_accepted_as_pass: ", "expired_allowlist_accepted_as_pass", ": ", count);
    }
  }

  lemma StatusText(ev: Evidence, tier: Tier, c: Condition)
    requires (c.CleanEnvUnverified? || c.ArtifactMissingAtHead? || c.ReleaseIdentityFail?)
    requires Matches(ev, tier, c).Some?
    ensures Matches(ev, tier, c).value == NameOf(c) + Continuation(ev, tier, c)
  {
    hide Named, Lookup, StatusOf, LeftOut, Joined, Listed;
    Prefixes();
    LongerPrefix();
    Regrouped("clean_env_unverified: ", "clean_env_unverified", ": ", StatusOf(ev.gates, "clean_env"));
    Regrouped("verification_artifact_missing_at_head: ", "verification_artifact_missing_at_head", ": ",
              StatusOf(ev.gates, "verification_artifacts"));
  }

  lemma ConstantText(ev: Evidence, tier: Tier, c: Condition)
    requires c.DirtyWorktree? || c.T3Stale? || c.T3Deferred? || c.VerificationStale?
    requires Matches(ev, tier, c).Some?
    ensures Matches(ev, tier, c).value == NameOf(c) && Continuation(ev, tier, c) == ""
  {
    hide Named, Lookup, StatusOf, LeftOut, Joined, Listed;
  }

  /** Such a text begins with the condition's own name, so the conditional score finds it. */
  lemma OwnName(ev: Evidence, tier: Tier, c: Condition)
    requires PlainlyNamed(c) && Matches(ev, tier, c).Some?
    ensures Matches(ev, tier, c).value == NameOf(c) + Continuation(ev, tier, c)
    ensures Contains(Matches(ev, tier, c).value, NameOf(c))
  {
    hide Matches, Contains, Continuation, NameOf;
    if ListsGates(c) {
      ListingText(ev, tier, c);
    } else if c.ExpiredAllowlist? || c.ExpiredAcceptedAsPass? {
      CountText(ev, tier, c);
    } else if c.CleanEnvUnverified? || c.ArtifactMissingAtHead? || c.ReleaseIdentityFail? {
      StatusText(ev, tier, c);
    } else {
      ConstantText(ev, tier, c);
    }
    AtStart(NameOf(c) + Continuation(ev, tier, c), NameOf(c), Continuation(ev, tier, c));
  }

  // ----- The raw score -----

  /** The raw score is additive over dimensions, and one dimension counts its weight times its
      base score in hundredths; so is the weight sum. */
  lemma {:induction false} RawExact(a: seq<Dimension>, b: seq<Dimension>, d: Dimension)
    ensures Raw(a + b) == Raw(a) + Raw(b) && WeightSum(a + b) == WeightSum(a) + WeightSum(b)
    ensures Raw([d]) == d.weight * d.base / 100.0 && WeightSum([d]) == d.weight
    decreases |b|
  {
    assert [d][..0] == [];
    if b == [] {
      assert a + b == a;
    } else {
      var init, last := b[..|b| - 1], b[|b| - 1];
      assert (a + b)[..|a + b| - 1] == a + init;
      RawExact(a, init, d);
    }
  }

  // ----- Scores -----

  /** The rule applies to the tier and its condition holds. */
  ghost predicate Applies(r: Rule, ev: Evidence, tier: Tier) {
    (r.scope == [] || tier in r.scope) && Holds(ev, tier, r.condition)
  }

  /** The score is raw, lowered to the lowest cap among the rules that apply; a rule without a
      cap counts as 70. */
  ghost predicate LoweredTo(score: real, raw: real, rules: seq<Rule>, ev: Evidence, tier: Tier) {
    && score <= raw
    && (forall r :: r in rules && Applies(r, ev, tier) ==> score <= (if r.cap.Some? then r.cap.value else 70.0))
    && (score == raw
        || exists r :: r in rules && Applies(r, ev, tier) && score == if r.cap.Some? then r.cap.value else 70.0)
  }

  lemma TierScoreExact(raw: real, rules: seq<Rule>, ev: Evidence, tier: Tier)
    requires rules != []
    ensures LoweredTo(TierScore(raw, CapOf(rules, ev, tier)), raw, rules, ev, tier)
  {
    hide CapOf, Matches, Holds;
    LowestCap(rules, ev, tier);
    forall r | r in rules
      ensures Fires(r, ev, tier) <==> Applies(r, ev, tier)
    {
      MatchesExact(ev, tier, r.condition);
    }
  }

  /** The texts that the conditional score searches are those of the rules that apply to the
      engineering tier once staleness, expired allowlist entries and dirt are cleared; the
      dirt is kept for the first look, which only asks whether blockers are all there is. */
  lemma SearchedExact(rules: seq<Rule>, ev: Evidence, text: string)
    ensures text in SearchedTexts(rules, ev) <==>
      exists r :: r in rules && (r.scope == [] || Engineering in r.scope)
                  && Matches(ev.(t3Stale := false, expired := 0, dirty := false), Engineering, r.condition)
                     == Some(text)
    ensures text in FirstTexts(rules, ev) <==>
      exists r :: r in rules && (r.scope == [] || Engineering in r.scope)
                  && Matches(ev.(t3Stale := false, expired := 0), Engineering, r.condition) == Some(text)
  {
    hide Matches, CapOf;
    FactorsMeaning(rules, ev.(t3Stale := false, expired := 0, dirty := false), Engineering);
    FactorsMeaning(rules, ev.(t3Stale := false, expired := 0), Engineering);
  }

  /** One of the three blocker names can be read in the text. */
  predicate ReadsBlocker(text: string) {
    exists name :: name in {"head_mismatch", "dirty_worktree", "expired_allowlist"} && Contains(text, name)
  }

  /** The rule is no blocker, and its condition's name or its label can be read in a text. */
  ghost predicate FoundByText(r: Rule, texts: seq<string>) {
    && NameOf(r.condition) != "head_mismatch" && NameOf(r.condition) != "dirty_worktree"
    && NameOf(r.condition) != "expired_allowlist"
    && exists f :: f in texts
                   && (Contains(f, NameOf(r.condition)) || Contains(f, if r.factor.Some? then r.factor.value else ""))
  }

  lemma FoundExact(r: Rule, texts: seq<string>)
    ensures FoundByText(r, texts) <==> !IsBlocker(r.condition) && TextHit(r, texts)
  {
    hide Contains, NameOf;
  }

  lemma OnlyBlockersExact(texts: seq<string>)
    ensures OnlyBlockers(texts) <==> forall f :: f in texts ==> ReadsBlocker(f)
  {
    hide Contains;
    forall f | f in texts
      ensures NamesBlocker(f) <==> ReadsBlocker(f)
    {
      var names := {"head_mismatch", "dirty_worktree", "expired_allowlist"};
      assert "head_mismatch" in names && "dirty_worktree" in names && "expired_allowlist" in names;
    }
  }

  /** The conditional score in full: raw when every first text names a blocker, and otherwise
      raw, lowered to the lowest cap among the rules found by text; here a rule without a cap
      counts as 100. */
  lemma ConditionalExact(raw: real, rules: seq<Rule>, ev: Evidence)
    requires raw <= 100.0
    ensures var score, texts := Conditional(raw, rules, ev), SearchedTexts(rules, ev);
      if forall f :: f in FirstTexts(rules, ev) ==> ReadsBlocker(f) then score == raw
      else
        && score <= raw
        && (forall r :: r in rules && FoundByText(r, texts) ==> score <= if r.cap.Some? then r.cap.value else 100.0)
        && (score == raw
            || exists r :: r in rules && FoundByText(r, texts)
                           && score == if r.cap.Some? then r.cap.value else 100.0)
  {
    hide CapOf, Matches, TextHit, TextCap, OnlyBlockers, FoundByText, ReadsBlocker;
    OnlyBlockersExact(FirstTexts(rules, ev));
    TextCapMeaning(rules, SearchedTexts(rules, ev));
    forall r | r in rules
      ensures FoundByText(r, SearchedTexts(rules, ev))
         <==> !IsBlocker(r.condition) && TextHit(r, SearchedTexts(rules, ev))
    {
      FoundExact(r, SearchedTexts(rules, ev));
    }
  }

  /** The scorecard: verified and 7x24 score each lowered by the rules of their own tier, the
      conditional score between verified and raw exactly when only blockers are present or
      every rule found by text is covered. */
  lemma ScorecardExact(dims: seq<Dimension>, rules: seq<Rule>, ev: Evidence)
    requires rules != [] && Raw(dims) <= 100.0
    ensures ScoreOf(dims, rules, ev).Some?
    ensures var s := ScoreOf(dims, rules, ev).value;
      && s.raw == Raw(dims)
      && LoweredTo(s.verified, s.raw, rules, ev, Engineering)
      && LoweredTo(s.seven, s.raw, rules, ev, SevenByTwentyFour)
      && s.conditional == Conditional(s.raw, rules, ev) && s.conditional <= s.raw
      && (s.verified <= s.conditional <==>
            OnlyBlockers(FirstTexts(rules, ev)) || TextHitsCovered(s.raw, rules, ev))
  {
    hide CapOf, Conditional, LoweredTo, TextHitsCovered, OnlyBlockers;
    TierScoreExact(Raw(dims), rules, ev, Engineering);
    TierScoreExact(Raw(dims), rules, ev, SevenByTwentyFour);
    SandwichExact(Raw(dims), rules, ev);
  }

  /** Staleness and expired allowlist entries never influence the conditional score. */
  lemma ConditionalIgnoresBlockers(raw: real, rules: seq<Rule>, ev: Evidence, stale: bool, expired: nat)
    ensures Conditional(raw, rules, ev.(t3Stale := stale, expired := expired)) == Conditional(raw, rules, ev)
  {
    hide CapOf, OnlyBlockers, TextCap;
    var other := ev.(t3Stale := stale, expired := expired);
    assert Relaxed(other, other.dirty) == Relaxed(ev, ev.dirty);
    assert Relaxed(other, false) == Relaxed(ev, false);
  }
}
