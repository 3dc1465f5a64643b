/**
 The whole path from the enabled manifests to the manifest chosen: build the rules file,
 load it, evaluate it. Compiled policies always choose, and choose only what was enabled.
 */
module CompiledPolicy {
  import opened Wrappers
  import opened Policy
  import opened RuleFile
  import opened RuleCompiler
  import opened CompilerCorrectness

  /** The engine's rules after the file for these manifests has been written and loaded. */
  function Compiled(creatives: seq<Creative>): seq<Rule> {
    DecodeAll(CompiledRules(creatives))
  }

  /** Writing the rules of any list of manifests and loading them back never fails. */
  method SyncRules(creatives: seq<Creative>, minDwellMs: int, cooldownMs: int) returns (engine: Loaded)
    ensures engine == Engine(Compiled(creatives), minDwellMs, cooldownMs)
  {
    var file := BuildRulesFile(creatives, minDwellMs, cooldownMs);
    CompiledHasCatchAll(creatives);
    engine := LoadPolicy(file);
  }

  lemma CompiledHasCatchAll(creatives: seq<Creative>)
    ensures HasCatchAll(CompiledRules(creatives))
  {
    var all := AllRules(creatives);
    if !HasCatchAll(all) {
      assert CatchAll(CompiledRules(creatives)[|all|]);
    }
  }

  lemma CatchAllMatches(r: RawRule, s: Signal, hour: int)
    requires CatchAll(r)
    ensures Matches(Decode(r), s, hour)
  {
    DecodedMeaning(r, s, hour);
  }

  // ---------- whose rules they are ----------

  /** The weight is 1, except for reminders: 0.3 for a recurring and 0.2 for an ambient one. */
  predicate WeightFits(r: RawRule) {
    || r.weight == Some(1.0)
    || (r.priority == Some(7) && r.weight == Some(0.3))
    || (r.priority == Some(3) && r.weight == Some(0.2))
  }

  /** The rule names this manifest, has a nonnegative priority, a fitting weight and nothing but
      conditions that the loader reads. */
  ghost predicate Owned(r: RawRule, m: ManifestId) {
    && r.manifestId == m
    && r.priority.Some? && r.priority.value >= 0
    && WeightFits(r)
    && Readable(ConditionsOf(r))
  }

  ghost predicate OwnedBy(rules: seq<RawRule>, m: ManifestId) {
    forall r :: r in rules ==> Owned(r, m)
  }

  lemma SlotReadable(c: Conditions, slot: Slot)
    requires Readable(c)
    ensures Readable(WithSlot(c, slot)) && Readable(WithSlot(c[AttentionEngagedGte := Num(ATTENTION_GATE)], slot))
  {
  }

  lemma MergedReadable(a: Conditions, b: Conditions)
    requires Readable(a) && Readable(b)
    ensures Readable(Merged(a, b))
  {
  }

  lemma TableReadable(t: AudienceTag)
    ensures Readable(AudienceConditions(t))
  {
    forall k | k in AudienceConditions(t)
      ensures k != DemographicsSuppressedEq && !k.OtherKey? && AudienceConditions(t)[k].Num?
    {
      TableKeys(t, k);
    }
  }

  lemma SingleOwned(m: ManifestId, t: AudienceTag, w: Window, slot: Slot, bonus: nat)
    ensures Owned(SingleRule(m, t, w, slot, bonus), m)
  {
    TableReadable(t);
    SlotReadable(AudienceConditions(t), slot);
  }

  lemma OwnedConcat(a: seq<RawRule>, b: seq<RawRule>, m: ManifestId)
    requires OwnedBy(a, m) && OwnedBy(b, m)
    ensures OwnedBy(a + b, m)
  {
  }

  lemma {:induction false} SinglesOwned(m: ManifestId, audience: seq<AudienceTag>, w: Window, slot: Slot, bonus: nat)
    ensures OwnedBy(Singles(m, audience, w, slot, bonus), m)
  {
    if audience != [] {
      SinglesOwned(m, audience[..|audience| - 1], w, slot, bonus);
      SingleOwned(m, audience[|audience| - 1], w, slot, bonus);
    }
  }

  lemma PairOwned(m: ManifestId, a: AudienceTag, b: AudienceTag, w: Window, slot: Slot, bonus: nat)
    ensures OwnedBy(PairIfCrossing(m, a, b, w, slot, bonus), m)
  {
    TableReadable(a);
    TableReadable(b);
    MergedReadable(AudienceConditions(a), AudienceConditions(b));
    SlotReadable(Merged(AudienceConditions(a), AudienceConditions(b)), slot);
  }

  lemma {:induction false} PairsWithOwned(m: ManifestId, a: AudienceTag, later: seq<AudienceTag>, w: Window, slot: Slot, bonus: nat)
    ensures OwnedBy(PairsWith(m, a, later, w, slot, bonus), m)
  {
    if later != [] {
      var before, last := later[..|later| - 1], later[|later| - 1];
      PairsWithOwned(m, a, before, w, slot, bonus);
      PairOwned(m, a, last, w, slot, bonus);
      OwnedConcat(PairsWith(m, a, before, w, slot, bonus), PairIfCrossing(m, a, last, w, slot, bonus), m);
    }
  }

  lemma {:induction false} PairsOwned(m: ManifestId, tags: seq<AudienceTag>, n: nat, w: Window, slot: Slot, bonus: nat)
    requires n <= |tags|
    ensures OwnedBy(Pairs(m, tags, n, w, slot, bonus), m)
  {
    if n > 0 {
      var a, later := tags[n - 1], tags[n..];
      PairsOwned(m, tags, n - 1, w, slot, bonus);
      PairsWithOwned(m, a, later, w, slot, bonus);
      OwnedConcat(Pairs(m, tags, n - 1, w, slot, bonus), PairsWith(m, a, later, w, slot, bonus), m);
    }
  }

  lemma AudienceRulesOwned(m: ManifestId, audience: seq<AudienceTag>, w: Window, slot: Slot, bonus: nat)
    ensures OwnedBy(AudienceRules(m, audience, w, slot, bonus), m)
  {
    SinglesOwned(m, audience, w, slot, bonus);
    PairsOwned(m, Dimensioned(audience), |Dimensioned(audience)|, w, slot, bonus);
  }

  lemma SlotRulesOwned(m: ManifestId, audience: seq<AudienceTag>, w: (TimeTag, nat), slot: Slot, bonus: nat)
    ensures OwnedBy(SlotRules(m, audience, w, slot, bonus), m)
  {
    if audience != [] {
      AudienceRulesOwned(m, audience, Some(w), slot, bonus);
    } else {
      SlotReadable(BASIC_PRESENCE, slot);
    }
  }

  lemma {:induction false} WindowRulesOwned(m: ManifestId, audience: seq<AudienceTag>, t: TimeTag, n: nat, bonus: nat)
    requires n <= |Windows(t)|
    ensures OwnedBy(WindowRules(m, audience, t, n, bonus), m)
  {
    if n > 0 {
      WindowRulesOwned(m, audience, t, n - 1, bonus);
      SlotRulesOwned(m, audience, (t, n - 1), Windows(t)[n - 1], bonus);
      OwnedConcat(WindowRules(m, audience, t, n - 1, bonus),
                  SlotRules(m, audience, (t, n - 1), Windows(t)[n - 1], bonus), m);
    }
  }

  lemma {:induction false} TimeRulesOwned(m: ManifestId, audience: seq<AudienceTag>, times: seq<TimeTag>, bonus: nat)
    ensures OwnedBy(TimeRules(m, audience, times, bonus), m)
  {
    if times != [] {
      TimeRulesOwned(m, audience, times[..|times| - 1], bonus);
      WindowRulesOwned(m, audience, times[|times| - 1], |Windows(times[|times| - 1])|, bonus);
    }
  }

  lemma RulesForOwned(c: Creative)
    ensures OwnedBy(RulesFor(c), c.manifestId)
  {
    TimeRulesOwned(c.manifestId, AudienceTags(c.tags), TimeTags(c.tags), TotalBonus(c.tags));
    AudienceRulesOwned(c.manifestId, AudienceTags(c.tags), None, None, TotalBonus(c.tags));
  }

  /** No generated condition is lost in decoding: every entry of every rule in the file can be
      read back from the decoded rule. */
  lemma NoConditionIsLost(creatives: seq<Creative>)
    ensures forall r, k :: r in CompiledRules(creatives) ==>
              Recovered(Decode(r), k) == if k in ConditionsOf(r) then Some(ConditionsOf(r)[k]) else None
  {
    AllRulesMembers(creatives);
    forall r, k | r in CompiledRules(creatives)
      ensures Recovered(Decode(r), k) == if k in ConditionsOf(r) then Some(ConditionsOf(r)[k]) else None
    {
      if FromSome(creatives, r) {
        var c :| c in creatives && r in RulesFor(c);
        RulesForOwned(c);
        assert Owned(r, c.manifestId);
      }
      DecodeKeepsEverything(r, k);
    }
  }

  ghost predicate FromSome(creatives: seq<Creative>, r: RawRule) {
    exists c :: c in creatives && r in RulesFor(c)
  }

  lemma {:induction false} AllRulesMembers(creatives: seq<Creative>)
    ensures forall r :: r in AllRules(creatives) <==> FromSome(creatives, r)
  {
    if creatives != [] {
      var before, last := creatives[..|creatives| - 1], creatives[|creatives| - 1];
      AllRulesMembers(before);
      forall r
        ensures r in AllRules(creatives) <==> FromSome(creatives, r)
      {
        if FromSome(before, r) {
          var c :| c in before && r in RulesFor(c);
          assert c in creatives;
        }
        assert r in RulesFor(last) ==> last in creatives;
      }
    }
  }

  /** The manifest that the injected safety fallback points to. */
  function FallbackTarget(creatives: seq<Creative>): ManifestId {
    if creatives != [] then creatives[0].manifestId else "manifest-attract"
  }

  /** The manifest's own tags ask for it, or its reminder applies. */
  ghost predicate Asked(c: Creative, s: Signal, hour: int) {
    Targeted(c, s, hour)
    || (FrequencyOf(c.tags) != Primary && TargetingRules(c) != [] && Present(s, 1, 0.6))
  }

  lemma RulesForMeaning(c: Creative, s: Signal, hour: int)
    requires HourOfDay(hour)
    ensures SomeMatches(RulesFor(c), s, hour) <==> Asked(c, s, hour)
  {
    CompilationPreservesMeaning(c, s, hour);
    if ReminderRule(c).Some? && TargetingRules(c) != [] {
      SomeMatchesConcat(TargetingRules(c), [ReminderRule(c).value], s, hour);
      SomeMatchesOne(ReminderRule(c).value, s, hour);
      DecodedMeaning(ReminderRule(c).value, s, hour);
      CrowdHolds(PresenceCountGte, 1.0, 0.6, s, hour);
    } else {
      assert RulesFor(c) == TargetingRules(c);
    }
  }

  lemma GeneratedMatchesWhenAsked(creatives: seq<Creative>, s: Signal, hour: int)
    requires HourOfDay(hour)
    ensures (exists r :: r in AllRules(creatives) && Matches(Decode(r), s, hour))
       <==> exists c :: c in creatives && Asked(c, s, hour)
  {
    AllRulesMembers(creatives);
    if exists r :: r in AllRules(creatives) && Matches(Decode(r), s, hour) {
      var r :| r in AllRules(creatives) && Matches(Decode(r), s, hour);
      assert FromSome(creatives, r);
      var c :| c in creatives && r in RulesFor(c);
      RulesForMeaning(c, s, hour);
    }
    if exists c :: c in creatives && Asked(c, s, hour) {
      var c :| c in creatives && Asked(c, s, hour);
      RulesForMeaning(c, s, hour);
      var i :| 0 <= i < |RulesFor(c)| && Matches(Decode(RulesFor(c)[i]), s, hour);
      assert RulesFor(c)[i] in RulesFor(c) && FromSome(creatives, RulesFor(c)[i]);
    }
  }

  lemma GeneratedRuleIsAskedFor(creatives: seq<Creative>, r: RawRule, s: Signal, hour: int)
    requires HourOfDay(hour)
    ensures r in AllRules(creatives) && Matches(Decode(r), s, hour) ==>
              exists c :: c in creatives && Asked(c, s, hour) && r.manifestId == c.manifestId
  {
    AllRulesMembers(creatives);
    if FromSome(creatives, r) && Matches(Decode(r), s, hour) {
      var c :| c in creatives && r in RulesFor(c);
      RulesForOwned(c);
      RulesForMeaning(c, s, hour);
      var k :| 0 <= k < |RulesFor(c)| && RulesFor(c)[k] == r;
      assert Asked(c, s, hour);
    }
  }

  lemma GeneratedOutranksFallback(creatives: seq<Creative>, r: RawRule)
    ensures r in AllRules(creatives) ==>
              && Decode(r).priority > Decode(FallbackRule(creatives)).priority
              && Decode(r) in Compiled(creatives)
  {
    AllRulesMembers(creatives);
    if FromSome(creatives, r) {
      var c :| c in creatives && r in RulesFor(c);
      RulesForOwned(c);
      assert Owned(r, c.manifestId);
      var k :| 0 <= k < |AllRules(creatives)| && AllRules(creatives)[k] == r;
      assert Compiled(creatives)[k] == Decode(r);
    }
  }

  lemma CompiledMembers(creatives: seq<Creative>, rule: Rule)
    requires rule in Compiled(creatives)
    ensures (exists r :: r in AllRules(creatives) && rule == Decode(r)) || rule == Decode(FallbackRule(creatives))
  {
    var rules, all := Compiled(creatives), AllRules(creatives);
    var i :| 0 <= i < |rules| && rules[i] == rule;
    if i < |all| {
      assert all[i] in all && rule == Decode(all[i]);
    }
  }

  ghost predicate Enabled(creatives: seq<Creative>, m: ManifestId) {
    if creatives == [] then m == "manifest-attract" else exists c :: c in creatives && c.manifestId == m
  }

  /** Compiled rules name only enabled manifests, or the stub if there are none. */
  lemma CompiledRulesNameEnabled(creatives: seq<Creative>)
    ensures forall rule :: rule in Compiled(creatives) ==> Enabled(creatives, rule.manifestId)
  {
    AllRulesMembers(creatives);
    forall rule | rule in Compiled(creatives)
      ensures Enabled(creatives, rule.manifestId)
    {
      CompiledMembers(creatives, rule);
      if r :| r in AllRules(creatives) && rule == Decode(r) {
        assert FromSome(creatives, r);
        var c :| c in creatives && r in RulesFor(c);
        RulesForOwned(c);
        assert Owned(r, c.manifestId);
      } else if creatives != [] {
        assert creatives[0] in creatives;
      }
    }
  }

  lemma OwnedHasWeight(r: RawRule, m: ManifestId)
    requires Owned(r, m)
    ensures Decode(r).weight > 0.0
  {
  }

  lemma GeneratedHasWeight(creatives: seq<Creative>, r: RawRule)
    ensures r in AllRules(creatives) ==> Decode(r).weight > 0.0
  {
    AllRulesMembers(creatives);
    if FromSome(creatives, r) {
      var c :| c in creatives && r in RulesFor(c);
      RulesForOwned(c);
      OwnedHasWeight(r, c.manifestId);
    }
  }

  lemma FallbackHasWeight(creatives: seq<Creative>)
    ensures Decode(FallbackRule(creatives)).weight == 1.0
  {
  }

  /** Every compiled rule can be drawn. */
  lemma CompiledRulesHaveWeight(creatives: seq<Creative>)
    ensures forall rule :: rule in Compiled(creatives) ==> rule.weight > 0.0
  {
    forall rule | rule in Compiled(creatives)
      ensures rule.weight > 0.0
    {
      CompiledMembers(creatives, rule);
      if r :| r in AllRules(creatives) && rule == Decode(r) {
        GeneratedHasWeight(creatives, r);
      } else {
        FallbackHasWeight(creatives);
      }
    }
  }

  /** A compiled policy chooses some manifest for every signal, hour and random choice. */
  lemma CompiledAlwaysChooses(creatives: seq<Creative>, s: Signal, hour: int, pick: nat)
    ensures Evaluate(Compiled(creatives), s, hour, pick).Some?
  {
    var raw, rules := CompiledRules(creatives), Compiled(creatives);
    CompiledHasCatchAll(creatives);
    var i :| 0 <= i < |raw| && CatchAll(raw[i]);
    CatchAllMatches(raw[i], s, hour);
    assert rules[i] == Decode(raw[i]);
    assert Decode(raw[i]) in rules;
    EvaluateChoosesTopmost(rules, s, hour, pick);
    CompiledRulesHaveWeight(creatives);
    TierHasWeight(rules, s, hour);
  }

  lemma TierHasWeight(rules: seq<Rule>, s: Signal, hour: int)
    requires forall rule :: rule in rules ==> rule.weight > 0.0
    ensures !Weightless(Tier(rules, s, hour))
  {
    TierIsTopmost(rules, s, hour);
    if |Tier(rules, s, hour)| > 1 {
      assert Tier(rules, s, hour)[0] in Tier(rules, s, hour);
    }
  }

  /** The choice made by a compiled policy is a manifest that is asked for; only when no
      enabled manifest is, it is the fallback target. */
  lemma CompiledChoiceIsAskedFor(creatives: seq<Creative>, s: Signal, hour: int, pick: nat)
    requires HourOfDay(hour)
    ensures var chosen := Evaluate(Compiled(creatives), s, hour, pick);
            if exists c :: c in creatives && Asked(c, s, hour)
            then exists c :: c in creatives && Asked(c, s, hour) && chosen == Some(c.manifestId)
            else chosen == Some(FallbackTarget(creatives))
  {
    var rules, all := Compiled(creatives), AllRules(creatives);
    CompiledAlwaysChooses(creatives, s, hour, pick);
    EvaluateChoosesTopmost(rules, s, hour, pick);
    var top := Choose(Tier(rules, s, hour), pick);
    CompiledMembers(creatives, top);
    if exists r :: r in all && top == Decode(r) {
      var r :| r in all && top == Decode(r);
      GeneratedRuleIsAskedFor(creatives, r, s, hour);
    } else {
      GeneratedMatchesWhenAsked(creatives, s, hour);
      forall r | r in all
        ensures !Matches(Decode(r), s, hour)
      {
        GeneratedOutranksFallback(creatives, r);
      }
    }
  }

  /** Whatever a compiled policy chooses is enabled, or the stub if nothing is. */
  lemma CompiledChoiceIsEnabled(creatives: seq<Creative>, s: Signal, hour: int, pick: nat)
    ensures var chosen := Evaluate(Compiled(creatives), s, hour, pick);
            chosen.Some? && Enabled(creatives, chosen.value)
  {
    CompiledAlwaysChooses(creatives, s, hour, pick);
    CompiledRulesNameEnabled(creatives);
    EvaluateChoosesTopmost(Compiled(creatives), s, hour, pick);
  }
}
