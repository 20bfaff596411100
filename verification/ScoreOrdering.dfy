/** How the verified, conditional and raw scores are ordered: exactly when, and why a rule table
    with proper labels guarantees it. */
module ScoreOrdering {
  import opened Options
  import opened ReleaseScore
  import opened Strings

  // ----- Ordering of the scores -----

  lemma {:induction false} TextCapMeaning(rules: seq<Rule>, factors: seq<string>)
    ensures TextCap(rules, factors) <= 100.0
    ensures forall r :: r in rules && !IsBlocker(r.condition) && TextHit(r, factors) ==>
      TextCap(rules, factors) <= OrElse(r.cap, 100.0)
    ensures TextCap(rules, factors) == 100.0 ||
      (exists r :: r in rules && !IsBlocker(r.condition) && TextHit(r, factors)
                   && TextCap(rules, factors) == OrElse(r.cap, 100.0))
  {
    hide TextHit;
    if rules != [] {
      var init, last := rules[..|rules| - 1], rules[|rules| - 1];
      TextCapMeaning(init, factors);
      assert rules == init + [last];
      assert last in rules;
      if TextCap(rules, factors) == TextCap(init, factors) && TextCap(init, factors) != 100.0 {
        var r :| r in init && !IsBlocker(r.condition) && TextHit(r, factors)
                 && TextCap(init, factors) == OrElse(r.cap, 100.0);
        assert r in rules;
      }
    }
  }

  /** The verified score is at most a bound exactly when the raw score is, or some firing rule's
      cap is. */
  lemma VerifiedBelow(raw: real, rules: seq<Rule>, ev: Evidence, tier: Tier, bound: real)
    requires rules != []
    ensures TierScore(raw, CapOf(rules, ev, tier)) <= bound
       <==> raw <= bound || exists q :: q in rules && Fires(q, ev, tier) && OrElse(q.cap, 70.0) <= bound
  {
    hide CapOf, Matches;
    LowestCap(rules, ev, tier);
  }

  /** The factor texts that the conditional score searches. */
  function SearchedTexts(rules: seq<Rule>, ev: Evidence): seq<string> {
    FactorsOf(CapOf(rules, Relaxed(ev, false), Engineering))
  }

  function FirstTexts(rules: seq<Rule>, ev: Evidence): seq<string> {
    FactorsOf(CapOf(rules, Relaxed(ev, ev.dirty), Engineering))
  }

  /** Every non-blocker rule that is hit by text has a cap that raw, or the cap of some rule
      that really fires, does not exceed. */
  ghost predicate TextHitsCovered(raw: real, rules: seq<Rule>, ev: Evidence) {
    forall r :: r in rules && !IsBlocker(r.condition) && TextHit(r, SearchedTexts(rules, ev)) ==>
      raw <= OrElse(r.cap, 100.0)
      || exists q :: q in rules && Fires(q, ev, Engineering) && OrElse(q.cap, 70.0) <= OrElse(r.cap, 100.0)
  }

  /** The conditional score never exceeds the raw score. It is at least the verified score
      exactly when only blocker texts are present or every text hit is covered. */
  lemma SandwichExact(raw: real, rules: seq<Rule>, ev: Evidence)
    requires rules != [] && raw <= 100.0
    ensures Conditional(raw, rules, ev) <= raw
    ensures TierScore(raw, CapOf(rules, ev, Engineering)) <= Conditional(raw, rules, ev)
       <==> OnlyBlockers(FirstTexts(rules, ev)) || TextHitsCovered(raw, rules, ev)
  {
    hide CapOf, Matches, TextCap, TextHit, OnlyBlockers, Fires;
    var texts := SearchedTexts(rules, ev);
    var verified := TierScore(raw, CapOf(rules, ev, Engineering));
    var cap := TextCap(rules, texts);
    TextCapMeaning(rules, texts);
    VerifiedBelow(raw, rules, ev, Engineering, cap);
    assert verified <= raw;
    forall r | r in rules && !IsBlocker(r.condition) && TextHit(r, texts)
      ensures verified <= OrElse(r.cap, 100.0) <==>
        raw <= OrElse(r.cap, 100.0)
        || exists q :: q in rules && Fires(q, ev, Engineering) && OrElse(q.cap, 70.0) <= OrElse(r.cap, 100.0)
    {
      VerifiedBelow(raw, rules, ev, Engineering, OrElse(r.cap, 100.0));
    }
  }

  /** A rule without a factor label is hit by every text: the empty label occurs in it. */
  lemma UnlabelledIsHit(r: Rule, factors: seq<string>)
    requires Label(r) == "" && factors != []
    ensures TextHit(r, factors)
  {
    assert OccursAt(factors[0], "", 0);
    assert factors[0] in factors && Contains(factors[0], Label(r));
  }

  const MISSING_GATE := Evidence([("x", Gate("missing", "", false, true, ""))], false, false, 0, 0, map[])
  const CAP_80 := Rule(GateMissing, Some(80.0), Some("gate_missing"), [])
  const UNLABELLED_10 := Rule(Unknown("never"), Some(10.0), None, [])

  /** An unlabelled rule that never fires pulls the conditional score below the verified one. */
  lemma UnlabelledBreaksSandwich()
    ensures Conditional(50.0, [CAP_80, UNLABELLED_10], MISSING_GATE)
          < TierScore(50.0, CapOf([CAP_80, UNLABELLED_10], MISSING_GATE, Engineering))
  {
    hide Matches, CapOf, TextCap, TextHit, OnlyBlockers, Label, NameOf;
    var rules := [CAP_80, UNLABELLED_10];
    RelaxedMissing();
    OneHit(rules);
    var texts := ["gate_missing: x"];
    UnlabelledIsHit(UNLABELLED_10, texts);
    NeverIsNoBlocker();
    TextPresent(texts);
    assert rules[1] == UNLABELLED_10;
    TextCapMeaning(rules, texts);
  }

  lemma RelaxedMissing()
    ensures Relaxed(MISSING_GATE, false) == MISSING_GATE && Relaxed(MISSING_GATE, MISSING_GATE.dirty) == MISSING_GATE
    ensures Label(UNLABELLED_10) == ""
  {
  }

  lemma NeverIsNoBlocker()
    ensures !IsBlocker(UNLABELLED_10.condition)
  {
    assert |"never"| == 5;
  }

  lemma TextPresent(texts: seq<string>)
    requires texts == ["gate_missing: x"]
    ensures !OnlyBlockers(texts)
  {
    NotABlockerText();
    assert texts[0] in texts;
  }

  lemma MissingGateText()
    ensures Matches(MISSING_GATE, Engineering, GateMissing) == Some("gate_missing: x")
  {
    var gates := MISSING_GATE.gates;
    assert gates[1..] == [];
    assert Named(gates[1..], {"missing"}, ARCH_GATES) == [];
    assert |gates[0].0| == 1;
    assert Named(gates, {"missing"}, ARCH_GATES) == ["x"];
    assert Joined(["x"]) == "x";
    assert "gate_missing: " + "x" == "gate_missing: x";
  }

  lemma OneHit(rules: seq<Rule>)
    requires rules == [CAP_80, UNLABELLED_10]
    ensures Hits(rules, MISSING_GATE, Engineering) == [("gate_missing: x", 80.0)]
    ensures CapOf(rules, MISSING_GATE, Engineering) == Capped(80.0, ["gate_missing: x"])
  {
    MissingGateText();
    assert rules[..1] == [CAP_80];
    assert [CAP_80][..0] == [];
    assert Hits([CAP_80], MISSING_GATE, Engineering) == [("gate_missing: x", 80.0)];
    var hits := Hits(rules, MISSING_GATE, Engineering);
    assert hits == [("gate_missing: x", 80.0)];
    assert Texts(hits) == ["gate_missing: x"];
    assert Texts(hits)[..0] == [];
  }

  lemma NotABlockerText()
    ensures !NamesBlocker("gate_missing: x")
  {
    var t := "gate_missing: x";
    assert |t| == 15;
    forall i: nat
      ensures !OccursAt(t, "head_mismatch", i) && !OccursAt(t, "dirty_worktree", i)
      ensures !OccursAt(t, "expired_allowlist", i)
    {
      if i <= 2 { assert t[i] == ['g', 'a', 't'][i]; }
      if i + 13 <= 15 { assert t[i..i + 13][0] == t[i]; }
      if i + 14 <= 15 { assert t[i..i + 14][0] == t[i]; }
    }
  }

  // ----- Well-labelled rule tables -----

  /** Each searched text contains a non-blocker rule's condition or label exactly when that
      rule is in scope and produced it, and a text names a blocker exactly when a blocker
      rule produced it. */
  ghost predicate WellLabelled(rules: seq<Rule>, ev: Evidence) {
    && (forall r, f :: r in rules && !IsBlocker(r.condition) && f in SearchedTexts(rules, ev) ==>
          (TextHit(r, [f]) <==>
             InScope(r, Engineering) && Matches(Relaxed(ev, false), Engineering, r.condition) == Some(f)))
    && (forall r :: r in rules && Fires(r, Relaxed(ev, ev.dirty), Engineering) ==>
          (NamesBlocker(Matches(Relaxed(ev, ev.dirty), Engineering, r.condition).value) <==> IsBlocker(r.condition)))
  }

  lemma HitByOne(r: Rule, factors: seq<string>)
    ensures TextHit(r, factors) <==> exists f :: f in factors && TextHit(r, [f])
  {
    hide Contains, NameOf, Label;
    if f :| f in factors && (Contains(f, NameOf(r.condition)) || Contains(f, Label(r))) {
      assert f in [f] && TextHit(r, [f]);
    }
  }

  /** Clearing dirt, staleness and the allowlist count never makes a condition match, and
      leaves every non-blocker match of the dirty evidence. */
  lemma RelaxedMatches(ev: Evidence, tier: Tier, c: Condition)
    ensures Matches(Relaxed(ev, false), tier, c).Some? ==> Matches(ev, tier, c) == Matches(Relaxed(ev, false), tier, c)
    ensures !IsBlocker(c) ==> Matches(Relaxed(ev, ev.dirty), tier, c) == Matches(Relaxed(ev, false), tier, c)
  {
    hide Named, Lookup, StatusOf;
  }

  /** In a well-labelled table a non-blocker rule is hit by text exactly when it fires. */
  lemma HitIffFires(rules: seq<Rule>, ev: Evidence, r: Rule)
    requires WellLabelled(rules, ev) && r in rules && !IsBlocker(r.condition)
    ensures TextHit(r, SearchedTexts(rules, ev)) <==> Fires(r, Relaxed(ev, false), Engineering)
  {
    hide Matches, TextHit, CapOf;
    var texts := SearchedTexts(rules, ev);
    HitByOne(r, texts);
    FactorsMeaning(rules, Relaxed(ev, false), Engineering);
    if Fires(r, Relaxed(ev, false), Engineering) {
      var f := Matches(Relaxed(ev, false), Engineering, r.condition).value;
      assert f in texts;
    }
  }

  /** Only blocker texts are present exactly when no other rule fires. */
  lemma OnlyBlockersIff(rules: seq<Rule>, ev: Evidence)
    requires WellLabelled(rules, ev)
    ensures OnlyBlockers(FirstTexts(rules, ev)) <==>
      forall r :: r in rules && !IsBlocker(r.condition) ==> !Fires(r, Relaxed(ev, false), Engineering)
  {
    hide Matches, CapOf, NamesBlocker;
    var e := Relaxed(ev, ev.dirty);
    FactorsMeaning(rules, e, Engineering);
    forall r | r in rules && !IsBlocker(r.condition)
      ensures Fires(r, Relaxed(ev, false), Engineering) <==> Fires(r, e, Engineering)
    {
      RelaxedMatches(ev, Engineering, r.condition);
    }
    if r :| r in rules && !IsBlocker(r.condition) && Fires(r, Relaxed(ev, false), Engineering) {
      var t := Matches(e, Engineering, r.condition).value;
      assert t in FirstTexts(rules, ev) && !NamesBlocker(t);
    }
  }

  /** With a well-labelled table the conditional score is exactly the minimum of raw and the
      caps of the non-blocker rules that fire once the blockers are cleared, and so it lies
      between the verified and the raw score. */
  lemma LabelledSandwich(raw: real, rules: seq<Rule>, ev: Evidence)
    requires rules != [] && raw <= 100.0 && WellLabelled(rules, ev)
    ensures var score := Conditional(raw, rules, ev);
      && TierScore(raw, CapOf(rules, ev, Engineering)) <= score <= raw
      && (forall r :: r in rules && !IsBlocker(r.condition) && Fires(r, Relaxed(ev, false), Engineering) ==>
            score <= OrElse(r.cap, 100.0))
      && (score == raw ||
          (exists r :: r in rules && !IsBlocker(r.condition) && Fires(r, Relaxed(ev, false), Engineering)
                       && score == OrElse(r.cap, 100.0)))
  {
    hide Matches, CapOf, TextHit, TextCap, WellLabelled, OnlyBlockers;
    var texts := SearchedTexts(rules, ev);
    OnlyBlockersIff(rules, ev);
    TextCapMeaning(rules, texts);
    forall r | r in rules && !IsBlocker(r.condition)
      ensures TextHit(r, texts) <==> Fires(r, Relaxed(ev, false), Engineering)
    {
      HitIffFires(rules, ev, r);
    }
    forall r | r in rules && Fires(r, Relaxed(ev, false), Engineering)
      ensures Fires(r, ev, Engineering) && OrElse(r.cap, 70.0) <= OrElse(r.cap, 100.0)
    {
      RelaxedMatches(ev, Engineering, r.condition);
    }
    SandwichExact(raw, rules, ev);
  }
}
