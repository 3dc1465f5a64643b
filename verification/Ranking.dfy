/**
 Which of several manifests is chosen: a rank read off the tags alone, and the proof that a
 compiled policy chooses exactly among the manifests of highest rank.
 */
module Ranking {
  import opened Wrappers
  import opened Policy
  import opened RuleFile
  import opened RuleCompiler
  import opened CompilerCorrectness
  import opened CompiledPolicy

  // ---------- the rank of a manifest ----------

  type Rank = Option<int>

  function MaxRank(a: Rank, b: Rank): Rank {
    if a == None then b
    else if b == None then a
    else if a.value >= b.value then a
    else b
  }

  function Raised(r: Rank, raise: int): Rank {
    if r == None then None else Some(r.value + raise)
  }

  ghost predicate HasAudience(tags: seq<Tag>) {
    exists t :: Audience(t) in tags
  }

  ghost predicate HasTime(tags: seq<Tag>) {
    exists t :: Time(t) in tags
  }

  /** Two tags of different dimensions that both hold. */
  predicate HeldPair(a: AudienceTag, b: AudienceTag, s: Signal) {
    Crossing(a, b) && TagHolds(a, s) && TagHolds(b, s)
  }

  /** What a single audience tag is worth. */
  function Worth(t: AudienceTag): int {
    match t
    case Attract => 0
    case General => 5
    case _ => 10
  }

  ghost predicate SomeOfWorth(tags: seq<Tag>, s: Signal, worth: int) {
    exists t :: Audience(t) in tags && TagHolds(t, s) && Worth(t) == worth
  }

  ghost predicate SomePair(tags: seq<Tag>, s: Signal) {
    exists a, b :: Audience(a) in tags && Audience(b) in tags && HeldPair(a, b, s)
  }

  /** The best of the audience tags that hold: 13 for two of different dimensions, 10 for one of a
      dimension, 5 for general, 0 for attract. */
  ghost function AudienceRank(tags: seq<Tag>, s: Signal): Rank {
    if SomePair(tags, s) then Some(13)
    else if SomeOfWorth(tags, s, 10) then Some(10)
    else if SomeOfWorth(tags, s, 5) then Some(5)
    else if SomeOfWorth(tags, s, 0) then Some(0)
    else None
  }

  /** 15 for every featured and 30 for every limited-time tag. */
  function PromotionOf(tags: seq<Tag>): nat {
    15 * multiset(tags)[Occasion(Featured)] + 30 * multiset(tags)[Occasion(LimitedTime)]
  }

  /** The rank by audience and time: 20 more for the audience with a time window that fits, and 10
      for such a window alone. */
  ghost function TargetRank(tags: seq<Tag>, s: Signal, hour: int): Rank {
    if !HourFits(tags, hour) then None
    else if HasAudience(tags) then
      Raised(AudienceRank(tags, s), (if HasTime(tags) then 20 else 0) + PromotionOf(tags))
    else if HasTime(tags) && Present(s, 1, 0.6) then Some(10 + PromotionOf(tags))
    else None
  }

  ghost predicate FirstFrequency(tags: seq<Tag>, f: FrequencyTag) {
    exists i :: 0 <= i < |tags| && tags[i] == Frequency(f) && forall j :: 0 <= j < i ==> !tags[j].Frequency?
  }

  /** The rank as a reminder. */
  ghost function ReminderRank(tags: seq<Tag>, s: Signal): Rank {
    if !(HasAudience(tags) || HasTime(tags)) || !Present(s, 1, 0.6) then None
    else if FirstFrequency(tags, Recurring) then Some(7)
    else if FirstFrequency(tags, Ambient) then Some(3)
    else None
  }

  ghost function RankOf(tags: seq<Tag>, s: Signal, hour: int): Rank {
    MaxRank(TargetRank(tags, s, hour), ReminderRank(tags, s))
  }

  // ---------- the best matching rule of a list ----------

  predicate MatchesAt(r: RawRule, s: Signal, hour: int, priority: int) {
    Matches(Decode(r), s, hour) && Decode(r).priority == priority
  }

  ghost predicate SomeMatchesAt(rules: seq<RawRule>, s: Signal, hour: int, priority: int) {
    exists i :: 0 <= i < |rules| && MatchesAt(rules[i], s, hour, priority)
  }

  /** The highest priority of a matching rule; None if no rule matches. */
  ghost predicate Best(rules: seq<RawRule>, s: Signal, hour: int, best: Rank) {
    && (best.Some? ==> SomeMatchesAt(rules, s, hour, best.value))
    && (forall i :: 0 <= i < |rules| && Matches(Decode(rules[i]), s, hour) ==>
          best.Some? && Decode(rules[i]).priority <= best.value)
  }

  lemma SomeMatchesAtConcat(a: seq<RawRule>, b: seq<RawRule>, s: Signal, hour: int, p: int)
    ensures SomeMatchesAt(a, s, hour, p) || SomeMatchesAt(b, s, hour, p) ==> SomeMatchesAt(a + b, s, hour, p)
  {
    if SomeMatchesAt(a, s, hour, p) {
      var i :| 0 <= i < |a| && MatchesAt(a[i], s, hour, p);
      assert (a + b)[i] == a[i];
    }
    if SomeMatchesAt(b, s, hour, p) {
      var i :| 0 <= i < |b| && MatchesAt(b[i], s, hour, p);
      assert (a + b)[|a| + i] == b[i];
    }
  }

  lemma BestConcat(a: seq<RawRule>, b: seq<RawRule>, s: Signal, hour: int, x: Rank, y: Rank)
    requires Best(a, s, hour, x) && Best(b, s, hour, y)
    ensures Best(a + b, s, hour, MaxRank(x, y))
  {
    var best := MaxRank(x, y);
    if best.Some? {
      SomeMatchesAtConcat(a, b, s, hour, best.value);
    }
    forall i | 0 <= i < |a + b| && Matches(Decode((a + b)[i]), s, hour)
      ensures best.Some? && Decode((a + b)[i]).priority <= best.value
    {
      assert (a + b)[i] == if i < |a| then a[i] else b[i - |a|];
    }
  }

  lemma NoneBest(s: Signal, hour: int)
    ensures Best([], s, hour, None)
  {
  }

  lemma BestOne(r: RawRule, s: Signal, hour: int)
    ensures Best([r], s, hour, if Matches(Decode(r), s, hour) then Some(Decode(r).priority) else None)
  {
    if Matches(Decode(r), s, hour) {
      assert MatchesAt([r][0], s, hour, Decode(r).priority);
    }
  }

  function If(b: bool, r: Rank): Rank {
    if b then r else None
  }

  lemma BestEither(a: seq<RawRule>, b: seq<RawRule>, s: Signal, hour: int, x: bool, y: bool, r: Rank)
    requires Best(a, s, hour, If(x, r)) && Best(b, s, hour, If(y, r))
    ensures Best(a + b, s, hour, If(x || y, r))
  {
    BestConcat(a, b, s, hour, If(x, r), If(y, r));
  }

  predicate RuleMatches(r: RawRule, s: Signal, hour: int, matches: bool) {
    Matches(Decode(r), s, hour) == matches
  }

  lemma BestRule(r: RawRule, s: Signal, hour: int, matches: bool, priority: int)
    requires RuleMatches(r, s, hour, matches) && Decode(r).priority == priority
    ensures Best([r], s, hour, If(matches, Some(priority)))
  {
    BestOne(r, s, hour);
  }

  // ---------- single-tag rules ----------

  /** What a slot adds: with a time tag 20, without 0. */
  function SlotRaise(w: Window): int {
    if w == None then 0 else 20
  }

  function WhenIn(slot: Slot, hour: int, r: Rank): Rank {
    if InSlot(slot, hour) then r else None
  }

  /** The worth of a tag if it holds. */
  function Holding(s: Signal): AudienceTag -> Rank {
    t => if TagHolds(t, s) then Some(Worth(t)) else None
  }

  function SinglesRank(audience: seq<AudienceTag>, held: AudienceTag -> Rank): Rank {
    if audience == [] then None
    else MaxRank(SinglesRank(audience[..|audience| - 1], held), held(audience[|audience| - 1]))
  }

  lemma SinglePriority(m: ManifestId, t: AudienceTag, w: Window, slot: Slot, bonus: int)
    ensures Decode(SingleRule(m, t, w, slot, bonus)).priority == Worth(t) + SlotRaise(w) + bonus
  {
  }

  lemma SingleBest(m: ManifestId, t: AudienceTag, w: Window, slot: Slot, bonus: int, s: Signal, hour: int)
    ensures Best([SingleRule(m, t, w, slot, bonus)], s, hour,
                 WhenIn(slot, hour, Raised(Holding(s)(t), SlotRaise(w) + bonus)))
  {
    SinglePriority(m, t, w, slot, bonus);
    SingleMeaning(m, t, w, slot, bonus, s, hour);
    BestOne(SingleRule(m, t, w, slot, bonus), s, hour);
  }

  lemma MaxRaised(a: Rank, b: Rank, raise: int, slot: Slot, hour: int)
    ensures MaxRank(WhenIn(slot, hour, Raised(a, raise)), WhenIn(slot, hour, Raised(b, raise)))
         == WhenIn(slot, hour, Raised(MaxRank(a, b), raise))
  {
  }

  /** Every single-tag rule has the rank its tag holds, raised, while the hour is in the slot. */
  ghost predicate EachSingleBest(m: ManifestId, audience: seq<AudienceTag>, w: Window, slot: Slot, bonus: int, s: Signal, hour: int,
                                 held: AudienceTag -> Rank, raise: int) {
    forall t :: t in audience ==>
      Best([SingleRule(m, t, w, slot, bonus)], s, hour, WhenIn(slot, hour, Raised(held(t), raise)))
  }

  lemma {:induction false} SinglesBestOf(m: ManifestId, audience: seq<AudienceTag>, w: Window, slot: Slot, bonus: int, s: Signal, hour: int,
                                         held: AudienceTag -> Rank, raise: int)
    requires EachSingleBest(m, audience, w, slot, bonus, s, hour, held, raise)
    ensures Best(Singles(m, audience, w, slot, bonus), s, hour,
                 WhenIn(slot, hour, Raised(SinglesRank(audience, held), raise)))
  {
    if audience != [] {
      var before, last := audience[..|audience| - 1], audience[|audience| - 1];
      assert last in audience;
      SinglesBestOf(m, before, w, slot, bonus, s, hour, held, raise);
      BestConcat(Singles(m, before, w, slot, bonus), [SingleRule(m, last, w, slot, bonus)], s, hour,
                 WhenIn(slot, hour, Raised(SinglesRank(before, held), raise)),
                 WhenIn(slot, hour, Raised(held(last), raise)));
      MaxRaised(SinglesRank(before, held), held(last), raise, slot, hour);
    }
  }

  lemma SinglesBest(m: ManifestId, audience: seq<AudienceTag>, w: Window, slot: Slot, bonus: int, s: Signal, hour: int)
    ensures Best(Singles(m, audience, w, slot, bonus), s, hour,
                 WhenIn(slot, hour, Raised(SinglesRank(audience, Holding(s)), SlotRaise(w) + bonus)))
  {
    forall t | t in audience
      ensures Best([SingleRule(m, t, w, slot, bonus)], s, hour,
                   WhenIn(slot, hour, Raised(Holding(s)(t), SlotRaise(w) + bonus)))
    {
      SingleBest(m, t, w, slot, bonus, s, hour);
    }
    SinglesBestOf(m, audience, w, slot, bonus, s, hour, Holding(s), SlotRaise(w) + bonus);
  }

  /** The best single tag is one of those that hold, and worth no less than any other. */
  lemma {:induction false} SinglesRankIs(audience: seq<AudienceTag>, s: Signal)
    ensures forall t :: t in audience && TagHolds(t, s) ==> SinglesRank(audience, Holding(s)).Some? && SinglesRank(audience, Holding(s)).value >= Worth(t)
    ensures SinglesRank(audience, Holding(s)).Some? ==>
              exists t :: t in audience && TagHolds(t, s) && Worth(t) == SinglesRank(audience, Holding(s)).value
  {
    if audience != [] {
      SinglesRankIs(audience[..|audience| - 1], s);
      assert audience[|audience| - 1] in audience;
    }
  }

  // ---------- pair rules ----------

  /** Whether both tags hold and are of different dimensions. */
  function HoldingPair(s: Signal): (AudienceTag, AudienceTag) -> bool {
    (a, b) => HeldPair(a, b, s)
  }

  function RowHas<T>(a: T, later: seq<T>, held: (T, T) -> bool): bool {
    later != [] && (RowHas(a, later[..|later| - 1], held) || held(a, later[|later| - 1]))
  }

  function PairsHave<T>(tags: seq<T>, n: nat, held: (T, T) -> bool): bool
    requires n <= |tags|
  {
    n > 0 && (PairsHave(tags, n - 1, held) || RowHas(tags[n - 1], tags[n..], held))
  }

  /** The rank of a pair rule. */
  function PairRank(w: Window, bonus: int): Rank {
    Some(13 + SlotRaise(w) + bonus)
  }

  lemma PairPriorityIs(m: ManifestId, a: AudienceTag, b: AudienceTag, w: Window, slot: Slot, bonus: int)
    ensures Decode(PairRule(m, a, b, w, slot, bonus)).priority == 13 + SlotRaise(w) + bonus
  {
  }

  lemma PairBest(m: ManifestId, a: AudienceTag, b: AudienceTag, w: Window, slot: Slot, bonus: int, s: Signal, hour: int)
    requires DimensionOf(a).Some? && DimensionOf(b).Some?
    ensures Best(PairIfCrossing(m, a, b, w, slot, bonus), s, hour,
                 If(InSlot(slot, hour) && HoldingPair(s)(a, b), PairRank(w, bonus)))
  {
    if DimensionOf(a) != DimensionOf(b) {
      var rule := PairRule(m, a, b, w, slot, bonus);
      PairPriorityIs(m, a, b, w, slot, bonus);
      PairMatchesIff(m, a, b, w, slot, bonus, s, hour);
      BestRule(rule, s, hour, InSlot(slot, hour) && HoldingPair(s)(a, b), 13 + SlotRaise(w) + bonus);
    } else {
      NoPair(a, b, s);
    }
  }

  lemma NoPair(a: AudienceTag, b: AudienceTag, s: Signal)
    requires DimensionOf(a) == DimensionOf(b)
    ensures !HoldingPair(s)(a, b)
  {
  }

  lemma PairMatchesIff(m: ManifestId, a: AudienceTag, b: AudienceTag, w: Window, slot: Slot, bonus: int, s: Signal, hour: int)
    requires Crossing(a, b)
    ensures RuleMatches(PairRule(m, a, b, w, slot, bonus), s, hour, InSlot(slot, hour) && HoldingPair(s)(a, b))
  {
    HoldingPairIs(a, b, s);
    PairHolds(m, a, b, w, slot, bonus, s, hour);
  }

  lemma HoldingPairIs(a: AudienceTag, b: AudienceTag, s: Signal)
    requires Crossing(a, b)
    ensures HoldingPair(s)(a, b) == (TagHolds(a, s) && TagHolds(b, s))
  {
  }

  lemma {:induction false} RowBest(m: ManifestId, a: AudienceTag, later: seq<AudienceTag>, w: Window, slot: Slot, bonus: int, s: Signal, hour: int)
    requires DimensionOf(a).Some? && AllDimensioned(later)
    ensures Best(PairsWith(m, a, later, w, slot, bonus), s, hour,
                 If(InSlot(slot, hour) && RowHas(a, later, HoldingPair(s)), PairRank(w, bonus)))
  {
    if later != [] {
      var before, last := later[..|later| - 1], later[|later| - 1];
      RowBest(m, a, before, w, slot, bonus, s, hour);
      PairBest(m, a, last, w, slot, bonus, s, hour);
      BestEither(PairsWith(m, a, before, w, slot, bonus), PairIfCrossing(m, a, last, w, slot, bonus), s, hour,
                 InSlot(slot, hour) && RowHas(a, before, HoldingPair(s)),
                 InSlot(slot, hour) && HoldingPair(s)(a, last), PairRank(w, bonus));
    }
  }

  /** The rules of a row have this rank, here, if the row has a pair that holds. */
  ghost predicate RowBestAt(m: ManifestId, tags: seq<AudienceTag>, i: nat, w: Window, slot: Slot, bonus: int, s: Signal, hour: int,
                            here: bool, held: (AudienceTag, AudienceTag) -> bool, r: Rank)
    requires i < |tags|
  {
    Best(PairsWith(m, tags[i], tags[i + 1..], w, slot, bonus), s, hour, If(here && RowHas(tags[i], tags[i + 1..], held), r))
  }

  lemma PairsStep(m: ManifestId, tags: seq<AudienceTag>, i: nat, w: Window, slot: Slot, bonus: int, s: Signal, hour: int,
                  here: bool, held: (AudienceTag, AudienceTag) -> bool, r: Rank)
    requires i < |tags| && RowBestAt(m, tags, i, w, slot, bonus, s, hour, here, held, r)
    requires Best(Pairs(m, tags, i, w, slot, bonus), s, hour, If(here && PairsHave(tags, i, held), r))
    ensures Best(Pairs(m, tags, i + 1, w, slot, bonus), s, hour, If(here && PairsHave(tags, i + 1, held), r))
  {
    var earlier, row := Pairs(m, tags, i, w, slot, bonus), PairsWith(m, tags[i], tags[i + 1..], w, slot, bonus);
    BestEither(earlier, row, s, hour, here && PairsHave(tags, i, held), here && RowHas(tags[i], tags[i + 1..], held), r);
  }

  lemma {:induction false} PairsBest(m: ManifestId, tags: seq<AudienceTag>, n: nat, w: Window, slot: Slot, bonus: int, s: Signal, hour: int,
                                     here: bool, held: (AudienceTag, AudienceTag) -> bool, r: Rank)
    requires n <= |tags|
    requires forall i :: 0 <= i < |tags| ==> RowBestAt(m, tags, i, w, slot, bonus, s, hour, here, held, r)
    ensures Best(Pairs(m, tags, n, w, slot, bonus), s, hour, If(here && PairsHave(tags, n, held), r))
  {
    if n > 0 {
      var i := n - 1;
      PairsBest(m, tags, i, w, slot, bonus, s, hour, here, held, r);
      assert RowBestAt(m, tags, i, w, slot, bonus, s, hour, here, held, r);
      PairsStep(m, tags, i, w, slot, bonus, s, hour, here, held, r);
    } else {
      NoneBest(s, hour);
      assert Pairs(m, tags, 0, w, slot, bonus) == [] && !PairsHave(tags, 0, held);
    }
  }

  lemma AllPairsBest(m: ManifestId, tags: seq<AudienceTag>, w: Window, slot: Slot, bonus: int, s: Signal, hour: int)
    requires AllDimensioned(tags)
    ensures Best(Pairs(m, tags, |tags|, w, slot, bonus), s, hour,
                 If(InSlot(slot, hour) && PairsHave(tags, |tags|, HoldingPair(s)), PairRank(w, bonus)))
  {
    forall i | 0 <= i < |tags|
      ensures RowBestAt(m, tags, i, w, slot, bonus, s, hour, InSlot(slot, hour), HoldingPair(s), PairRank(w, bonus))
    {
      RowBest(m, tags[i], tags[i + 1..], w, slot, bonus, s, hour);
    }
    PairsBest(m, tags, |tags|, w, slot, bonus, s, hour, InSlot(slot, hour), HoldingPair(s), PairRank(w, bonus));
  }

  lemma {:induction false} RowHasIff<T>(a: T, later: seq<T>, held: (T, T) -> bool)
    ensures RowHas(a, later, held) <==> exists b :: b in later && held(a, b)
  {
    if later != [] {
      RowHasIff(a, later[..|later| - 1], held);
      assert forall b :: b in later <==> b in later[..|later| - 1] || b == later[|later| - 1];
    }
  }

  lemma {:induction false} PairsHaveIff<T>(tags: seq<T>, n: nat, held: (T, T) -> bool)
    requires n <= |tags|
    ensures PairsHave(tags, n, held) <==> exists i :: 0 <= i < n && RowHas(tags[i], tags[i + 1..], held)
  {
    if n > 0 {
      PairsHaveIff(tags, n - 1, held);
    }
  }

  ghost predicate SomeTwo<T(!new)>(tags: seq<T>, held: (T, T) -> bool) {
    exists a, b :: a in tags && b in tags && held(a, b)
  }

  ghost predicate Unordered<T(!new)>(held: (T, T) -> bool) {
    forall a, b :: held(a, b) ==> a != b && held(b, a)
  }

  lemma HaveIsSomeTwo<T(!new)>(tags: seq<T>, held: (T, T) -> bool)
    requires PairsHave(tags, |tags|, held)
    ensures SomeTwo(tags, held)
  {
    PairsHaveIff(tags, |tags|, held);
    var i :| 0 <= i < |tags| && RowHas(tags[i], tags[i + 1..], held);
    RowHasIff(tags[i], tags[i + 1..], held);
    var b :| b in tags[i + 1..] && held(tags[i], b);
    assert tags[i] in tags && b in tags;
  }

  lemma LaterPair<T>(tags: seq<T>, i: nat, j: nat, held: (T, T) -> bool)
    requires i < j < |tags| && held(tags[i], tags[j])
    ensures PairsHave(tags, |tags|, held)
  {
    RowHasIff(tags[i], tags[i + 1..], held);
    assert tags[j] == tags[i + 1..][j - i - 1];
    PairsHaveIff(tags, |tags|, held);
  }

  lemma SomeTwoIsHad<T(!new)>(tags: seq<T>, held: (T, T) -> bool)
    requires SomeTwo(tags, held) && Unordered(held)
    ensures PairsHave(tags, |tags|, held)
  {
    var a, b :| a in tags && b in tags && held(a, b);
    var i :| 0 <= i < |tags| && tags[i] == a;
    var j :| 0 <= j < |tags| && tags[j] == b;
    if i < j {
      LaterPair(tags, i, j, held);
    } else {
      LaterPair(tags, j, i, held);
    }
  }

  /** Some two of the tags, in any order, are of different dimensions and both hold. */
  lemma SomePairHeld(tags: seq<AudienceTag>, s: Signal)
    ensures PairsHave(tags, |tags|, HoldingPair(s)) <==> SomeTwo(tags, HoldingPair(s))
  {
    if PairsHave(tags, |tags|, HoldingPair(s)) {
      HaveIsSomeTwo(tags, HoldingPair(s));
    }
    if SomeTwo(tags, HoldingPair(s)) {
      SomeTwoIsHad(tags, HoldingPair(s));
    }
  }

  lemma {:induction false} DimensionedAre(audience: seq<AudienceTag>)
    ensures forall t :: t in Dimensioned(audience) <==> t in audience && DimensionOf(t).Some?
  {
    if audience != [] {
      DimensionedAre(audience[..|audience| - 1]);
    }
  }

  // ---------- the audience rules of a slot ----------

  function BothRank(audience: seq<AudienceTag>, s: Signal): Rank {
    var tags := Dimensioned(audience);
    MaxRank(SinglesRank(audience, Holding(s)), If(PairsHave(tags, |tags|, HoldingPair(s)), Some(13)))
  }

  lemma AudienceRulesBest(m: ManifestId, audience: seq<AudienceTag>, w: Window, slot: Slot, bonus: int, s: Signal, hour: int)
    ensures Best(AudienceRules(m, audience, w, slot, bonus), s, hour,
                 WhenIn(slot, hour, Raised(BothRank(audience, s), SlotRaise(w) + bonus)))
  {
    var tags := Dimensioned(audience);
    SinglesBest(m, audience, w, slot, bonus, s, hour);
    DimensionedCounts(audience, AgeDimension);
    AllPairsBest(m, tags, w, slot, bonus, s, hour);
    BestConcat(Singles(m, audience, w, slot, bonus), AllPairs(m, audience, w, slot, bonus), s, hour,
               WhenIn(slot, hour, Raised(SinglesRank(audience, Holding(s)), SlotRaise(w) + bonus)),
               If(InSlot(slot, hour) && PairsHave(tags, |tags|, HoldingPair(s)), PairRank(w, bonus)));
  }

  lemma SomePairIsTwo(tags: seq<Tag>, d: seq<AudienceTag>, s: Signal)
    requires forall t :: t in d <==> Audience(t) in tags && DimensionOf(t).Some?
    requires SomePair(tags, s)
    ensures SomeTwo(d, HoldingPair(s))
  {
    var a, b :| Audience(a) in tags && Audience(b) in tags && HeldPair(a, b, s);
    assert a in d && b in d && HoldingPair(s)(a, b);
  }

  lemma TwoIsSomePair(tags: seq<Tag>, d: seq<AudienceTag>, s: Signal)
    requires forall t :: t in d <==> Audience(t) in tags && DimensionOf(t).Some?
    requires SomeTwo(d, HoldingPair(s))
    ensures SomePair(tags, s)
  {
    var a, b :| a in d && b in d && HoldingPair(s)(a, b);
    assert Audience(a) in tags && Audience(b) in tags && HeldPair(a, b, s);
  }

  lemma PairIsSomePair(tags: seq<Tag>, s: Signal)
    ensures var d := Dimensioned(AudienceTags(tags)); PairsHave(d, |d|, HoldingPair(s)) <==> SomePair(tags, s)
  {
    var d := Dimensioned(AudienceTags(tags));
    TagMembers(tags);
    DimensionedAre(AudienceTags(tags));
    SomePairHeld(d, s);
    if SomePair(tags, s) {
      SomePairIsTwo(tags, d, s);
    }
    if SomeTwo(d, HoldingPair(s)) {
      TwoIsSomePair(tags, d, s);
    }
  }

  lemma SinglesRankFromTags(tags: seq<Tag>, s: Signal)
    ensures SinglesRank(AudienceTags(tags), Holding(s))
         == if SomeOfWorth(tags, s, 10) then Some(10)
            else if SomeOfWorth(tags, s, 5) then Some(5)
            else if SomeOfWorth(tags, s, 0) then Some(0)
            else None
  {
    var r := SinglesRank(AudienceTags(tags), Holding(s));
    TagMembers(tags);
    SinglesRankIs(AudienceTags(tags), s);
    forall worth | SomeOfWorth(tags, s, worth)
      ensures r.Some? && r.value >= worth
    {
      var t :| Audience(t) in tags && TagHolds(t, s) && Worth(t) == worth;
      assert t in AudienceTags(tags);
    }
    if r.Some? {
      var t :| t in AudienceTags(tags) && TagHolds(t, s) && Worth(t) == r.value;
      assert Audience(t) in tags;
      assert SomeOfWorth(tags, s, r.value);
    }
  }

  lemma BothRankFromTags(tags: seq<Tag>, s: Signal)
    ensures BothRank(AudienceTags(tags), s) == AudienceRank(tags, s)
  {
    PairIsSomePair(tags, s);
    SinglesRankFromTags(tags, s);
  }

  // ---------- the rules of the time tags ----------

  /** The rank of a slot's rules while the hour is in it. */
  function SlotRank(audience: seq<AudienceTag>, bonus: int, s: Signal): Rank {
    if audience != [] then Raised(BothRank(audience, s), 20 + bonus)
    else if Present(s, 1, 0.6) then Some(10 + bonus) else None
  }

  lemma SlotRulesBest(m: ManifestId, audience: seq<AudienceTag>, w: (TimeTag, nat), slot: Slot, bonus: int, s: Signal, hour: int)
    ensures Best(SlotRules(m, audience, w, slot, bonus), s, hour, If(InSlot(slot, hour), SlotRank(audience, bonus, s)))
  {
    if audience != [] {
      AudienceRulesBest(m, audience, Some(w), slot, bonus, s, hour);
    } else {
      TimeOnlyMeaning(m, w, slot, bonus, s, hour);
      TimeOnlyPriority(m, w, slot, bonus);
      BestOne(TimeOnlyRule(m, w, slot, bonus), s, hour);
    }
  }

  lemma TimeOnlyPriority(m: ManifestId, w: (TimeTag, nat), slot: Slot, bonus: int)
    ensures Decode(TimeOnlyRule(m, w, slot, bonus)).priority == 10 + bonus
  {
  }

  ghost function InSome(t: TimeTag, n: nat, hour: int): bool
    requires n <= |Windows(t)|
  {
    InSomeSlot(t, n, hour)
  }

  /** The rules of every slot have this rank while the hour is in the slot. */
  ghost predicate SlotsBest(m: ManifestId, audience: seq<AudienceTag>, bonus: int, s: Signal, hour: int, r: Rank) {
    forall w, slot :: Best(SlotRules(m, audience, w, slot, bonus), s, hour, If(InSlot(slot, hour), r))
  }

  lemma WindowRulesStep(m: ManifestId, audience: seq<AudienceTag>, t: TimeTag, n: nat, bonus: int)
    requires 0 < n <= |Windows(t)|
    ensures WindowRules(m, audience, t, n, bonus)
         == WindowRules(m, audience, t, n - 1, bonus) + SlotRules(m, audience, (t, n - 1), Windows(t)[n - 1], bonus)
  {
  }

  lemma SlotBest(m: ManifestId, audience: seq<AudienceTag>, w: (TimeTag, nat), slot: Slot, bonus: int, s: Signal, hour: int, r: Rank)
    requires SlotsBest(m, audience, bonus, s, hour, r)
    ensures Best(SlotRules(m, audience, w, slot, bonus), s, hour, If(InSlot(slot, hour), r))
  {
  }

  lemma {:induction false} WindowRulesBest(m: ManifestId, audience: seq<AudienceTag>, t: TimeTag, n: nat, bonus: int, s: Signal, hour: int, r: Rank)
    requires n <= |Windows(t)| && SlotsBest(m, audience, bonus, s, hour, r)
    ensures Best(WindowRules(m, audience, t, n, bonus), s, hour, If(InSome(t, n, hour), r))
  {
    if n > 0 {
      var w, slot := (t, n - 1), Windows(t)[n - 1];
      WindowRulesBest(m, audience, t, n - 1, bonus, s, hour, r);
      SlotBest(m, audience, w, slot, bonus, s, hour, r);
      InSomeSlotStep(t, n, hour);
      var earlier, now := WindowRules(m, audience, t, n - 1, bonus), SlotRules(m, audience, w, slot, bonus);
      BestEither(earlier, now, s, hour, InSome(t, n - 1, hour), InSlot(slot, hour), r);
      WindowRulesStep(m, audience, t, n, bonus);
    }
  }

  lemma TimeTagBest(m: ManifestId, audience: seq<AudienceTag>, t: TimeTag, bonus: int, s: Signal, hour: int, r: Rank)
    requires HourOfDay(hour) && SlotsBest(m, audience, bonus, s, hour, r)
    ensures Best(WindowRules(m, audience, t, |Windows(t)|, bonus), s, hour, If(InWindow(t, hour), r))
  {
    WindowRulesBest(m, audience, t, |Windows(t)|, bonus, s, hour, r);
    WindowsCoverHours(t, hour);
  }

  lemma {:induction false} TimeRulesBest(m: ManifestId, audience: seq<AudienceTag>, times: seq<TimeTag>, bonus: int, s: Signal, hour: int, r: Rank)
    requires HourOfDay(hour) && SlotsBest(m, audience, bonus, s, hour, r)
    ensures Best(TimeRules(m, audience, times, bonus), s, hour, If(SomeWindow(times, hour), r))
  {
    if times != [] {
      var before, last := times[..|times| - 1], times[|times| - 1];
      TimeRulesBest(m, audience, before, bonus, s, hour, r);
      TimeTagBest(m, audience, last, bonus, s, hour, r);
      BestEither(TimeRules(m, audience, before, bonus), WindowRules(m, audience, last, |Windows(last)|, bonus), s, hour,
                 SomeWindow(before, hour), InWindow(last, hour), r);
      SomeWindowStep(times, hour);
    }
  }

  // ---------- the rules of a manifest ----------

  lemma {:induction false} BonusIsPromotion(tags: seq<Tag>)
    ensures TotalBonus(tags) == PromotionOf(tags)
  {
    if tags != [] {
      BonusIsPromotion(tags[1..]);
      assert tags == [tags[0]] + tags[1..];
    }
  }

  lemma {:induction false} FrequencyIsFirst(tags: seq<Tag>, f: FrequencyTag)
    ensures FirstFrequency(tags, f) ==> FrequencyOf(tags) == f
    ensures FrequencyOf(tags) == f && f != Primary ==> FirstFrequency(tags, f)
  {
    if tags != [] && !tags[0].Frequency? {
      FrequencyIsFirst(tags[1..], f);
      if FirstFrequency(tags, f) {
        var i :| 0 <= i < |tags| && tags[i] == Frequency(f) && forall j :: 0 <= j < i ==> !tags[j].Frequency?;
        assert tags[1..][i - 1] == Frequency(f);
        assert forall j :: 0 <= j < i - 1 ==> !tags[1..][j].Frequency?;
        assert FirstFrequency(tags[1..], f);
      }
      if FirstFrequency(tags[1..], f) {
        var i :| 0 <= i < |tags[1..]| && tags[1..][i] == Frequency(f) && forall j :: 0 <= j < i ==> !tags[1..][j].Frequency?;
        assert tags[i + 1] == Frequency(f);
        assert forall j :: 0 <= j < i + 1 ==> !tags[j].Frequency?;
      }
    }
  }

  lemma FirstTags(tags: seq<Tag>)
    ensures AudienceTags(tags) != [] <==> HasAudience(tags)
    ensures TimeTags(tags) != [] <==> HasTime(tags)
  {
    TagMembers(tags);
    if AudienceTags(tags) != [] {
      assert AudienceTags(tags)[0] in AudienceTags(tags);
    }
    if TimeTags(tags) != [] {
      assert TimeTags(tags)[0] in TimeTags(tags);
    }
  }

  lemma HourFitsTimes(tags: seq<Tag>, hour: int)
    ensures HourFits(tags, hour) <==> !HasTime(tags) || SomeWindow(TimeTags(tags), hour)
  {
    TagMembers(tags);
    if SomeWindow(TimeTags(tags), hour) {
      var t :| t in TimeTags(tags) && InWindow(t, hour);
      assert Time(t) in tags;
    }
    if t :| Time(t) in tags && InWindow(t, hour) {
      assert t in TimeTags(tags);
    }
  }

  lemma TargetingRulesBest(c: Creative, s: Signal, hour: int)
    requires HourOfDay(hour)
    ensures Best(TargetingRules(c), s, hour, TargetRank(c.tags, s, hour))
  {
    var audience, times, bonus := AudienceTags(c.tags), TimeTags(c.tags), TotalBonus(c.tags);
    FirstTags(c.tags);
    HourFitsTimes(c.tags, hour);
    BonusIsPromotion(c.tags);
    BothRankFromTags(c.tags, s);
    if times != [] {
      var r := SlotRank(audience, bonus, s);
      forall w, slot
        ensures Best(SlotRules(c.manifestId, audience, w, slot, bonus), s, hour, If(InSlot(slot, hour), r))
      {
        SlotRulesBest(c.manifestId, audience, w, slot, bonus, s, hour);
      }
      TimeRulesBest(c.manifestId, audience, times, bonus, s, hour, r);
    } else {
      AudienceRulesBest(c.manifestId, audience, None, None, bonus, s, hour);
    }
  }

  lemma SlotRulesExist(m: ManifestId, audience: seq<AudienceTag>, w: (TimeTag, nat), slot: Slot, bonus: int)
    ensures SlotRules(m, audience, w, slot, bonus) != []
  {
    if audience != [] {
      assert |Singles(m, audience, Some(w), slot, bonus)| > 0;
    }
  }

  lemma TimeRulesExist(m: ManifestId, audience: seq<AudienceTag>, times: seq<TimeTag>, bonus: int)
    requires times != []
    ensures TimeRules(m, audience, times, bonus) != []
  {
    var last := times[|times| - 1];
    var n := |Windows(last)|;
    SlotRulesExist(m, audience, (last, n - 1), Windows(last)[n - 1], bonus);
    assert |WindowRules(m, audience, last, n, bonus)| > 0;
  }

  lemma TargetingRulesExist(c: Creative)
    ensures TargetingRules(c) != [] <==> HasAudience(c.tags) || HasTime(c.tags)
  {
    var audience, times, bonus := AudienceTags(c.tags), TimeTags(c.tags), TotalBonus(c.tags);
    FirstTags(c.tags);
    if times != [] {
      TimeRulesExist(c.manifestId, audience, times, bonus);
    } else if audience != [] {
      assert |Singles(c.manifestId, audience, None, None, bonus)| > 0;
    } else {
      assert Singles(c.manifestId, audience, None, None, bonus) == [];
      assert AllPairs(c.manifestId, audience, None, None, bonus) == [];
    }
  }

  lemma ReminderBest(c: Creative, s: Signal, hour: int)
    ensures ReminderRule(c).Some? && TargetingRules(c) != [] ==>
              Best([ReminderRule(c).value], s, hour, ReminderRank(c.tags, s))
    ensures !(ReminderRule(c).Some? && TargetingRules(c) != []) ==> ReminderRank(c.tags, s) == None
  {
    FrequencyIsFirst(c.tags, Recurring);
    FrequencyIsFirst(c.tags, Ambient);
    TargetingRulesExist(c);
    if ReminderRule(c).Some? && TargetingRules(c) != [] {
      BestOne(ReminderRule(c).value, s, hour);
      DecodedMeaning(ReminderRule(c).value, s, hour);
      CrowdHolds(PresenceCountGte, 1.0, 0.6, s, hour);
    }
  }

  /** Of all rules generated for a manifest, the best that matches has exactly its rank. */
  lemma RulesForBest(c: Creative, s: Signal, hour: int)
    requires HourOfDay(hour)
    ensures Best(RulesFor(c), s, hour, RankOf(c.tags, s, hour))
  {
    TargetingRulesBest(c, s, hour);
    ReminderBest(c, s, hour);
    if ReminderRule(c).Some? && TargetingRules(c) != [] {
      BestConcat(TargetingRules(c), [ReminderRule(c).value], s, hour, TargetRank(c.tags, s, hour), ReminderRank(c.tags, s));
    } else {
      assert RulesFor(c) == TargetingRules(c);
    }
  }

  /** A manifest has a rank exactly if it is asked for. */
  lemma RankedIffAsked(c: Creative, s: Signal, hour: int)
    requires HourOfDay(hour)
    ensures RankOf(c.tags, s, hour).Some? <==> Asked(c, s, hour)
  {
    RulesForBest(c, s, hour);
    RulesForMeaning(c, s, hour);
    var best, rules := RankOf(c.tags, s, hour), RulesFor(c);
    if best.Some? {
      var i :| 0 <= i < |rules| && MatchesAt(rules[i], s, hour, best.value);
      assert SomeMatches(rules, s, hour);
    }
  }

  // ---------- the choice ----------

  /** The manifest has a rank, and none of the others a higher one. */
  ghost predicate Highest(c: Creative, creatives: seq<Creative>, s: Signal, hour: int) {
    && RankOf(c.tags, s, hour).Some?
    && forall d :: d in creatives && RankOf(d.tags, s, hour).Some? ==>
         RankOf(d.tags, s, hour).value <= RankOf(c.tags, s, hour).value
  }

  /** Whoever has a rank has a rule of that priority in the policy that matches. */
  lemma RankedHasRule(creatives: seq<Creative>, c: Creative, s: Signal, hour: int) returns (rule: Rule)
    requires HourOfDay(hour) && c in creatives && RankOf(c.tags, s, hour).Some?
    ensures rule in Compiled(creatives) && Matches(rule, s, hour)
    ensures rule.priority == RankOf(c.tags, s, hour).value && rule.manifestId == c.manifestId
  {
    RulesForBest(c, s, hour);
    var rules := RulesFor(c);
    var i :| 0 <= i < |rules| && MatchesAt(rules[i], s, hour, RankOf(c.tags, s, hour).value);
    assert rules[i] in rules;
    AllRulesMembers(creatives);
    assert FromSome(creatives, rules[i]);
    GeneratedOutranksFallback(creatives, rules[i]);
    RulesForOwned(c);
    assert Owned(rules[i], c.manifestId);
    rule := Decode(rules[i]);
  }

  /** The manifest is among those listed, named by the rule, and of no lower rank. */
  ghost predicate Backs(creatives: seq<Creative>, c: Creative, rule: Rule, s: Signal, hour: int) {
    && c in creatives && rule.manifestId == c.manifestId
    && RankOf(c.tags, s, hour).Some? && rule.priority <= RankOf(c.tags, s, hour).value
  }

  /** A generated rule that matches is of some manifest whose rank is no lower. */
  lemma RuleHasRank(creatives: seq<Creative>, r: RawRule, s: Signal, hour: int)
    requires HourOfDay(hour)
    ensures r in AllRules(creatives) && Matches(Decode(r), s, hour) ==>
              exists c :: Backs(creatives, c, Decode(r), s, hour)
  {
    AllRulesMembers(creatives);
    if FromSome(creatives, r) && Matches(Decode(r), s, hour) {
      var c :| c in creatives && r in RulesFor(c);
      RulesForOwned(c);
      assert Owned(r, c.manifestId);
      RulesForBest(c, s, hour);
      var i :| 0 <= i < |RulesFor(c)| && RulesFor(c)[i] == r;
      assert Backs(creatives, c, Decode(r), s, hour);
    }
  }

  ghost predicate SomeRanked(creatives: seq<Creative>, s: Signal, hour: int) {
    exists c :: c in creatives && RankOf(c.tags, s, hour).Some?
  }

  ghost predicate ChosenIsHighest(creatives: seq<Creative>, s: Signal, hour: int, chosen: Option<ManifestId>) {
    exists c :: c in creatives && Highest(c, creatives, s, hour) && chosen == Some(c.manifestId)
  }

  lemma TopRuleIsHighest(creatives: seq<Creative>, r: RawRule, s: Signal, hour: int)
    requires HourOfDay(hour)
    ensures r in AllRules(creatives) && Topmost(Decode(r), Compiled(creatives), s, hour) ==>
              ChosenIsHighest(creatives, s, hour, Some(r.manifestId))
  {
    var top := Decode(r);
    RuleHasRank(creatives, r, s, hour);
    if r in AllRules(creatives) && Topmost(top, Compiled(creatives), s, hour) {
      var c :| Backs(creatives, c, top, s, hour);
      forall d | d in creatives && RankOf(d.tags, s, hour).Some?
        ensures RankOf(d.tags, s, hour).value <= top.priority
      {
        var rule := RankedHasRule(creatives, d, s, hour);
      }
      assert Highest(c, creatives, s, hour);
    }
  }

  /** A compiled policy chooses a manifest of highest rank; if none has a rank, the fallback. */
  lemma ChoiceIsHighest(creatives: seq<Creative>, s: Signal, hour: int, pick: nat)
    requires HourOfDay(hour)
    ensures var chosen := Evaluate(Compiled(creatives), s, hour, pick);
            if SomeRanked(creatives, s, hour) then ChosenIsHighest(creatives, s, hour, chosen)
            else chosen == Some(FallbackTarget(creatives))
  {
    var rules := Compiled(creatives);
    CompiledAlwaysChooses(creatives, s, hour, pick);
    EvaluateChoosesTopmost(rules, s, hour, pick);
    var top := Choose(Tier(rules, s, hour), pick);
    CompiledMembers(creatives, top);
    if r :| r in AllRules(creatives) && top == Decode(r) {
      TopRuleIsHighest(creatives, r, s, hour);
    } else if SomeRanked(creatives, s, hour) {
      RankedBeatsFallback(creatives, s, hour);
      assert false;
    }
  }

  lemma RankedBeatsFallback(creatives: seq<Creative>, s: Signal, hour: int)
    requires HourOfDay(hour) && SomeRanked(creatives, s, hour)
    ensures !Topmost(Decode(FallbackRule(creatives)), Compiled(creatives), s, hour)
  {
    var c :| c in creatives && RankOf(c.tags, s, hour).Some?;
    var rule := RankedHasRule(creatives, c, s, hour);
    RankNonnegative(c.tags, s, hour);
    assert Decode(FallbackRule(creatives)).priority == -1;
  }

  lemma RankNonnegative(tags: seq<Tag>, s: Signal, hour: int)
    ensures RankOf(tags, s, hour).Some? ==> RankOf(tags, s, hour).value >= 0
  {
  }

  /** Conversely, every manifest of highest rank can be the one chosen. */
  lemma HighestCanBeChosen(creatives: seq<Creative>, c: Creative, s: Signal, hour: int)
    requires HourOfDay(hour) && c in creatives && Highest(c, creatives, s, hour)
    ensures exists pick :: Evaluate(Compiled(creatives), s, hour, pick) == Some(c.manifestId)
  {
    var rules := Compiled(creatives);
    var rule := RankedHasRule(creatives, c, s, hour);
    RankNonnegative(c.tags, s, hour);
    forall q | q in rules && Matches(q, s, hour)
      ensures q.priority <= rule.priority
    {
      CompiledMembers(creatives, q);
      if r :| r in AllRules(creatives) && q == Decode(r) {
        RuleHasRank(creatives, r, s, hour);
      }
    }
    assert Topmost(rule, rules, s, hour);
    CompiledRulesHaveWeight(creatives);
    TopmostCanBeChosen(rules, s, hour, rule);
    var pick :| Drawable(Tier(rules, s, hour)) != [] && Choose(Tier(rules, s, hour), pick) == rule;
    assert Evaluate(rules, s, hour, pick) == Some(c.manifestId);
  }

  lemma NoFrequency(tags: seq<Tag>, s: Signal)
    requires forall t :: t in tags ==> !t.Frequency?
    ensures ReminderRank(tags, s) == None
  {
    forall f
      ensures !FirstFrequency(tags, f)
    {
      assert forall i :: 0 <= i < |tags| ==> tags[i] in tags;
    }
  }

  /** The rank of a manifest for the general audience, with or without a promotion. */
  lemma GeneralRank(tags: seq<Tag>, s: Signal, hour: int)
    requires Present(s, 1, 0.6) && Audience(General) in tags
    requires forall t :: t in tags ==> t == Audience(General) || t.Occasion?
    ensures RankOf(tags, s, hour) == Some(5 + PromotionOf(tags))
  {
    assert TagHolds(General, s) && Worth(General) == 5;
    assert SomeOfWorth(tags, s, 5);
    assert !SomePair(tags, s) && !SomeOfWorth(tags, s, 10) && !HasTime(tags) && HasAudience(tags);
    NoFrequency(tags, s);
    assert HourFits(tags, hour);
  }

  const PLAIN := Creative("a", [Audience(General)])
  const PROMOTED := Creative("b", [Audience(General), Occasion(LimitedTime)])

  lemma ExampleRanks(s: Signal)
    requires Present(s, 1, 0.6)
    ensures RankOf(PLAIN.tags, s, 12) == Some(5) && RankOf(PROMOTED.tags, s, 12) == Some(35)
  {
    GeneralRank(PLAIN.tags, s, 12);
    GeneralRank(PROMOTED.tags, s, 12);
    assert PLAIN.tags == [Audience(General)] && PROMOTED.tags == [Audience(General), Occasion(LimitedTime)];
    assert multiset([Audience(General), Occasion(LimitedTime)]) == multiset{Audience(General), Occasion(LimitedTime)};
    assert multiset([Audience(General)]) == multiset{Audience(General)};
  }

  /** A limited-time manifest beats a plain one for the same audience. */
  lemma PromotionExample(s: Signal, pick: nat)
    requires Present(s, 1, 0.6)
    ensures Evaluate(Compiled([PLAIN, PROMOTED]), s, 12, pick) == Some("b")
  {
    var both := [PLAIN, PROMOTED];
    ExampleRanks(s);
    assert both[1] in both;
    ChoiceIsHighest(both, s, 12, pick);
    var c :| c in both && Highest(c, both, s, 12) && Evaluate(Compiled(both), s, 12, pick) == Some(c.manifestId);
    assert RankOf(PROMOTED.tags, s, 12).value <= RankOf(c.tags, s, 12).value;
  }
}
