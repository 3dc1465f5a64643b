/**
 The rule evaluator of the decision service: signals, rules, matching, the stable sort
 by priority, and the choice among the matching rules of highest priority. Counts and
 thresholds are exact numbers; the weighted random choice is any member of the tier.
 */
module Policy {
  import opened Wrappers

  type ManifestId = string

  // ---------- signals ----------

  /** The demographic bins a rule can put a threshold on. */
  datatype Bin =
    | Child | YoungAdult | Adult | Senior
    | Male | Female
    | Formal | BusinessCasual | Casual | Athletic | OutdoorTechnical
    | WorkwearUniform | Streetwear | LuxuryPremium | LoungeComfort | SmartOccasion

  /** The demographics block; a missing bin counts as 0. */
  datatype Demographics = Demographics(suppressed: Option<bool>, bins: map<Bin, real>, dwellEstimateMs: Option<int>)

  datatype Attention = Attention(engaged: Option<real>, ambient: Option<real>)

  datatype Stability = Stability(stateStable: bool, freezeDecision: bool, observationsInWindow: nat)

  datatype Signal = Signal(
    count: int,
    confidence: real,
    stability: Stability,
    demographics: Option<Demographics>,
    attention: Option<Attention>,
    signalAgeMs: int,
    pipelineDegraded: bool)

  /** Demographics may be used only if present and explicitly not suppressed. */
  predicate Suppressed(s: Signal) {
    s.demographics.Some? && s.demographics.value.suppressed.Some? ==> s.demographics.value.suppressed.value
  }

  function BinValue(s: Signal, b: Bin): real {
    if s.demographics.Some? && b in s.demographics.value.bins then s.demographics.value.bins[b] else 0.0
  }

  // ---------- rules ----------

  /** A decoded rule; a threshold that is absent is not checked. */
  datatype Rule = Rule(
    ruleId: string,
    priority: int,
    manifestId: ManifestId,
    weight: real,
    countGte: Option<real>,
    countLte: Option<real>,
    countEq: Option<real>,
    confidenceGte: Option<real>,
    binGte: map<Bin, real>,
    suppressedEq: Option<bool>,
    engagedGte: Option<real>,
    hourGte: Option<real>,
    hourLte: Option<real>)

  predicate AtLeast(threshold: Option<real>, x: real) {
    threshold.Some? ==> x >= threshold.value
  }

  predicate AtMost(threshold: Option<real>, x: real) {
    threshold.Some? ==> x <= threshold.value
  }

  predicate PassesAttention(r: Rule, s: Signal) {
    r.engagedGte.Some? && s.attention.Some? && s.attention.value.engaged.Some?
    ==> s.attention.value.engaged.value >= r.engagedGte.value
  }

  predicate PassesDemographics(r: Rule, s: Signal) {
    r.binGte != map[] ==> !Suppressed(s) && forall b | b in r.binGte :: BinValue(s, b) >= r.binGte[b]
  }

  predicate Matches(r: Rule, s: Signal, hour: int) {
    && AtLeast(r.countGte, s.count as real)
    && AtMost(r.countLte, s.count as real)
    && (r.countEq.Some? ==> s.count as real == r.countEq.value)
    && AtLeast(r.confidenceGte, s.confidence)
    && PassesAttention(r, s)
    && (r.suppressedEq.Some? ==> Suppressed(s) == r.suppressedEq.value)
    && PassesDemographics(r, s)
    && AtLeast(r.hourGte, hour as real)
    && AtMost(r.hourLte, hour as real)
  }

  // ---------- sorting ----------

  function Insert(r: Rule, sorted: seq<Rule>): seq<Rule> {
    if sorted == [] then [r]
    else if r.priority <= sorted[|sorted| - 1].priority then sorted + [r]
    else Insert(r, sorted[..|sorted| - 1]) + [sorted[|sorted| - 1]]
  }

  /** The rules by descending priority, in file order among equals. */
  function SortedByPriority(rules: seq<Rule>): seq<Rule> {
    if rules == [] then []
    else Insert(rules[|rules| - 1], SortedByPriority(rules[..|rules| - 1]))
  }

  ghost predicate Descending(rules: seq<Rule>) {
    forall i, j :: 0 <= i < j < |rules| ==> rules[i].priority >= rules[j].priority
  }

  /** The rules of one priority, in order. */
  function OfPriority(rules: seq<Rule>, p: int): seq<Rule> {
    if rules == [] then []
    else
      var before, last := OfPriority(rules[..|rules| - 1], p), rules[|rules| - 1];
      if last.priority == p then before + [last] else before
  }

  lemma OfPriorityAppend(rules: seq<Rule>, r: Rule, p: int)
    ensures OfPriority(rules + [r], p) == OfPriority(rules, p) + if r.priority == p then [r] else []
  {
    assert (rules + [r])[..|rules|] == rules;
  }

  lemma {:induction false} InsertMembers(r: Rule, sorted: seq<Rule>)
    ensures forall x :: x in Insert(r, sorted) <==> x == r || x in sorted
  {
    if sorted != [] {
      InsertMembers(r, sorted[..|sorted| - 1]);
    }
  }

  lemma {:induction false} InsertDescends(r: Rule, sorted: seq<Rule>)
    requires Descending(sorted)
    ensures Descending(Insert(r, sorted))
  {
    if sorted != [] && r.priority > sorted[|sorted| - 1].priority {
      var init, last := sorted[..|sorted| - 1], sorted[|sorted| - 1];
      InsertDescends(r, init);
      InsertMembers(r, init);
      var inserted := Insert(r, init);
      forall i | 0 <= i < |inserted|
        ensures inserted[i].priority >= last.priority
      {
        assert inserted[i] in inserted;
      }
    }
  }

  lemma {:induction false} InsertStable(r: Rule, sorted: seq<Rule>, p: int)
    requires Descending(sorted)
    ensures OfPriority(Insert(r, sorted), p) == OfPriority(sorted, p) + if r.priority == p then [r] else []
  {
    OfPriorityAppend(sorted, r, p);
    if sorted == [] {
      assert sorted + [r] == [r];
    } else if r.priority > sorted[|sorted| - 1].priority {
      var init, last := sorted[..|sorted| - 1], sorted[|sorted| - 1];
      InsertStable(r, init, p);
      OfPriorityAppend(Insert(r, init), last, p);
      if r.priority == p {
        assert last.priority != p;
      }
    }
  }

  lemma {:induction false} SortMembers(rules: seq<Rule>)
    ensures forall r :: r in SortedByPriority(rules) <==> r in rules
  {
    if rules != [] {
      SortMembers(rules[..|rules| - 1]);
      InsertMembers(rules[|rules| - 1], SortedByPriority(rules[..|rules| - 1]));
    }
  }

  lemma {:induction false} SortDescends(rules: seq<Rule>)
    ensures Descending(SortedByPriority(rules))
  {
    if rules != [] {
      SortDescends(rules[..|rules| - 1]);
      InsertDescends(rules[|rules| - 1], SortedByPriority(rules[..|rules| - 1]));
    }
  }

  /** The rules of each priority are kept, all of them and in file order. */
  lemma {:induction false} SortStable(rules: seq<Rule>, p: int)
    ensures OfPriority(SortedByPriority(rules), p) == OfPriority(rules, p)
  {
    if rules != [] {
      var init, last := rules[..|rules| - 1], rules[|rules| - 1];
      SortStable(init, p);
      SortDescends(init);
      InsertStable(last, SortedByPriority(init), p);
    }
  }

  // ---------- evaluation ----------

  function Matching(rules: seq<Rule>, s: Signal, hour: int): seq<Rule> {
    if rules == [] then []
    else
      var before, last := Matching(rules[..|rules| - 1], s, hour), rules[|rules| - 1];
      if Matches(last, s, hour) then before + [last] else before
  }

  /** The rules `evaluate` chooses from: sort, keep the matching, keep the first one's tier. */
  function Tier(rules: seq<Rule>, s: Signal, hour: int): seq<Rule> {
    var matching := Matching(SortedByPriority(rules), s, hour);
    if matching == [] then [] else OfPriority(matching, matching[0].priority)
  }

  /** The rules of positive weight, in order. */
  function Weighted(tier: seq<Rule>): seq<Rule> {
    if tier == [] then []
    else
      var before, last := Weighted(tier[..|tier| - 1]), tier[|tier| - 1];
      if last.weight > 0.0 then before + [last] else before
  }

  /** The rules that can be drawn from a tier: a single one always, one of several only if it has
      a weight. If none can, the source's draw raises, which ends the tick without effect. */
  function Drawable(tier: seq<Rule>): seq<Rule> {
    if |tier| <= 1 then tier else Weighted(tier)
  }

  /** The rule chosen; `pick` stands for the weighted random choice within the tier. */
  function Choose(tier: seq<Rule>, pick: nat): Rule
    requires Drawable(tier) != []
  {
    var rules := Drawable(tier);
    if pick < |rules| then rules[pick] else rules[0]
  }

  function Evaluate(rules: seq<Rule>, s: Signal, hour: int, pick: nat): Option<ManifestId> {
    var tier := Tier(rules, s, hour);
    if Drawable(tier) == [] then None else Some(Choose(tier, pick).manifestId)
  }

  lemma {:induction false} WeightedMembers(tier: seq<Rule>)
    ensures forall r :: r in Weighted(tier) <==> r in tier && r.weight > 0.0
  {
    if tier != [] {
      WeightedMembers(tier[..|tier| - 1]);
    }
  }

  lemma DrawableMembers(tier: seq<Rule>)
    ensures forall r :: r in Drawable(tier) <==> r in tier && (|tier| == 1 || r.weight > 0.0)
  {
    WeightedMembers(tier);
  }

  lemma {:induction false} MatchingMembers(rules: seq<Rule>, s: Signal, hour: int)
    ensures forall r :: r in Matching(rules, s, hour) <==> r in rules && Matches(r, s, hour)
  {
    if rules != [] {
      MatchingMembers(rules[..|rules| - 1], s, hour);
    }
  }

  lemma {:induction false} OfPriorityMembers(rules: seq<Rule>, p: int)
    ensures forall r :: r in OfPriority(rules, p) <==> r in rules && r.priority == p
  {
    if rules != [] {
      OfPriorityMembers(rules[..|rules| - 1], p);
    }
  }

  lemma {:induction false} MatchingDescending(rules: seq<Rule>, s: Signal, hour: int)
    requires Descending(rules)
    ensures Descending(Matching(rules, s, hour))
  {
    if rules != [] {
      MatchingDescending(rules[..|rules| - 1], s, hour);
      MatchingMembers(rules[..|rules| - 1], s, hour);
      var before, last := Matching(rules[..|rules| - 1], s, hour), rules[|rules| - 1];
      forall i | 0 <= i < |before|
        ensures before[i].priority >= last.priority
      {
        assert before[i] in rules[..|rules| - 1];
      }
    }
  }

  /** Selecting by priority and by match commute. */
  lemma {:induction false} MatchingOfPriority(rules: seq<Rule>, s: Signal, hour: int, p: int)
    ensures OfPriority(Matching(rules, s, hour), p) == Matching(OfPriority(rules, p), s, hour)
  {
    if rules != [] {
      var init, last := rules[..|rules| - 1], rules[|rules| - 1];
      MatchingOfPriority(init, s, hour, p);
      OfPriorityAppend(Matching(init, s, hour), last, p);
      assert (OfPriority(init, p) + [last])[..|OfPriority(init, p)|] == OfPriority(init, p);
    }
  }

  /** No matching rule of the list has a higher priority. */
  ghost predicate Topmost(r: Rule, rules: seq<Rule>, s: Signal, hour: int) {
    && r in rules && Matches(r, s, hour)
    && forall q :: q in rules && Matches(q, s, hour) ==> q.priority <= r.priority
  }

  /** The tier consists of exactly the matching rules of globally highest priority. */
  lemma TierIsTopmost(rules: seq<Rule>, s: Signal, hour: int)
    ensures forall r :: r in Tier(rules, s, hour) <==> Topmost(r, rules, s, hour)
    ensures Tier(rules, s, hour) == [] <==> forall r :: r in rules ==> !Matches(r, s, hour)
  {
    var sorted := SortedByPriority(rules);
    var matching := Matching(sorted, s, hour);
    SortMembers(rules);
    SortDescends(rules);
    MatchingMembers(sorted, s, hour);
    MatchingDescending(sorted, s, hour);
    if matching != [] {
      OfPriorityMembers(matching, matching[0].priority);
      assert matching[0] in matching;
      forall q | q in matching
        ensures q.priority <= matching[0].priority
      {
        var i :| 0 <= i < |matching| && matching[i] == q;
      }
      assert matching[0] in Tier(rules, s, hour);
    }
  }

  /** The tier lists its rules in file order: it is the file's own rules of the top priority,
      restricted to those that match. */
  lemma TierInFileOrder(rules: seq<Rule>, s: Signal, hour: int, top: Rule)
    requires Topmost(top, rules, s, hour)
    ensures Tier(rules, s, hour) == Matching(OfPriority(rules, top.priority), s, hour)
  {
    var sorted := SortedByPriority(rules);
    var matching := Matching(sorted, s, hour);
    TierIsTopmost(rules, s, hour);
    OfPriorityMembers(matching, matching[0].priority);
    assert top in OfPriority(matching, matching[0].priority);
    SortStable(rules, top.priority);
    MatchingOfPriority(sorted, s, hour, top.priority);
  }

  lemma {:induction false} SelectionCounts(rules: seq<Rule>, s: Signal, hour: int, p: int, r: Rule)
    ensures multiset(Matching(OfPriority(rules, p), s, hour))[r]
         == if r.priority == p && Matches(r, s, hour) then multiset(rules)[r] else 0
  {
    if rules != [] {
      var init, last := rules[..|rules| - 1], rules[|rules| - 1];
      SelectionCounts(init, s, hour, p, r);
      assert rules == init + [last];
      assert (OfPriority(init, p) + [last])[..|OfPriority(init, p)|] == OfPriority(init, p);
    }
  }

  /** Reordering the rules of the file changes neither which rules are in the tier nor how
      often each occurs there. */
  lemma TierIgnoresFileOrder(rules: seq<Rule>, other: seq<Rule>, s: Signal, hour: int)
    requires multiset(rules) == multiset(other)
    ensures multiset(Tier(rules, s, hour)) == multiset(Tier(other, s, hour))
  {
    assert forall r :: r in rules <==> r in multiset(rules);
    assert forall r :: r in other <==> r in multiset(other);
    TierIsTopmost(rules, s, hour);
    TierIsTopmost(other, s, hour);
    if Tier(rules, s, hour) != [] {
      var top := Tier(rules, s, hour)[0];
      assert top in Tier(rules, s, hour);
      assert Topmost(top, other, s, hour);
      TierInFileOrder(rules, s, hour, top);
      TierInFileOrder(other, s, hour, top);
      forall r
        ensures multiset(Tier(rules, s, hour))[r] == multiset(Tier(other, s, hour))[r]
      {
        SelectionCounts(rules, s, hour, top.priority, r);
        SelectionCounts(other, s, hour, top.priority, r);
      }
    }
  }

  /** Several rules share the tier, and none of them has a weight. */
  ghost predicate Weightless(tier: seq<Rule>) {
    |tier| > 1 && forall r :: r in tier ==> r.weight <= 0.0
  }

  /** The choice is the manifest of a topmost rule; there is none exactly when nothing matches or
      the matching rules of highest priority are several without a weight. */
  lemma EvaluateChoosesTopmost(rules: seq<Rule>, s: Signal, hour: int, pick: nat)
    ensures Evaluate(rules, s, hour, pick).Some? ==>
              var r := Choose(Tier(rules, s, hour), pick);
              Topmost(r, rules, s, hour) && Evaluate(rules, s, hour, pick) == Some(r.manifestId)
    ensures Evaluate(rules, s, hour, pick) == None
       <==> (forall r :: r in rules ==> !Matches(r, s, hour)) || Weightless(Tier(rules, s, hour))
  {
    var tier := Tier(rules, s, hour);
    TierIsTopmost(rules, s, hour);
    DrawableMembers(tier);
    if Drawable(tier) != [] {
      assert Choose(tier, pick) in Drawable(tier);
    } else if tier != [] {
      assert tier[0] in tier;
    }
  }

  /** A topmost rule can be the one chosen exactly if it has a weight or is alone in its tier. */
  lemma TopmostCanBeChosen(rules: seq<Rule>, s: Signal, hour: int, r: Rule)
    requires Topmost(r, rules, s, hour)
    ensures (exists pick :: Drawable(Tier(rules, s, hour)) != [] && Choose(Tier(rules, s, hour), pick) == r)
       <==> r.weight > 0.0 || |Tier(rules, s, hour)| == 1
  {
    var tier := Tier(rules, s, hour);
    TierIsTopmost(rules, s, hour);
    DrawableMembers(tier);
    if pick :| Drawable(tier) != [] && Choose(tier, pick) == r {
      assert r in Drawable(tier);
    }
    if r in Drawable(tier) {
      var i :| 0 <= i < |Drawable(tier)| && Drawable(tier)[i] == r;
      assert Choose(tier, i) == r;
    }
  }

  // ---------- privacy ----------

  /** The two signals agree on everything but the contents of the demographics block, and
      both withhold demographics. */
  predicate SameButWithheldDemographics(s: Signal, t: Signal) {
    && s.(demographics := None) == t.(demographics := None)
    && Suppressed(s) && Suppressed(t)
  }

  lemma {:induction false} WithheldDemographicsUnread(rules: seq<Rule>, s: Signal, t: Signal, hour: int)
    requires SameButWithheldDemographics(s, t)
    ensures Matching(rules, s, hour) == Matching(rules, t, hour)
  {
    if rules != [] {
      WithheldDemographicsUnread(rules[..|rules| - 1], s, t, hour);
    }
  }

  /** Non-interference: while demographics are suppressed or absent, no age, gender or attire
      value influences which rules may be chosen, whatever the rules are. */
  lemma SuppressedDemographicsDoNotInfluence(rules: seq<Rule>, s: Signal, t: Signal, hour: int)
    requires SameButWithheldDemographics(s, t)
    ensures Tier(rules, s, hour) == Tier(rules, t, hour)
    ensures forall pick: nat :: Evaluate(rules, s, hour, pick) == Evaluate(rules, t, hour, pick)
  {
    WithheldDemographicsUnread(SortedByPriority(rules), s, t, hour);
  }
}
