/**
 The compiled rules mean what the tags say: a declarative reading of the tags, and proofs
 that compiling, decoding and matching preserve it.
 */
module CompilerCorrectness {
  import opened Wrappers
  import opened Policy
  import opened RuleFile
  import opened RuleCompiler

  // ---------- what tags mean ----------

  predicate Present(s: Signal, atLeast: int, confidence: real) {
    s.count >= atLeast && s.confidence >= confidence
  }

  /** Demographics are shown, and the bin has at least this positive share. */
  predicate Shows(s: Signal, b: Bin, share: real) {
    && s.demographics.Some? && s.demographics.value.suppressed == Some(false)
    && b in s.demographics.value.bins && s.demographics.value.bins[b] >= share
  }

  lemma BinHolds(s: Signal, b: Bin, share: real, hour: int)
    requires share > 0.0
    ensures Holds(BinGte(b), Num(share), s, hour) <==> Shows(s, b, share)
  {
  }

  /** The audience a tag asks for is in front of the screen. */
  predicate AudienceSeen(t: AudienceTag, s: Signal) {
    match t
    case Attract => true
    case General => Present(s, 1, 0.6)
    case SoloAdult => s.count == 1 && s.confidence >= 0.7 && Shows(s, Adult, 0.5)
    case GroupAdults => Present(s, 2, 0.7) && Shows(s, Adult, 0.5)
    case AdultWithChild => Present(s, 2, 0.7) && Shows(s, Child, 0.2) && Shows(s, Adult, 0.3)
    case TeenagerGroup => Present(s, 1, 0.7) && Shows(s, YoungAdult, 0.5)
    case SeniorsTag => Present(s, 1, 0.7) && Shows(s, Senior, 0.4)
    case MaleFocus => Present(s, 1, 0.6) && Shows(s, Male, 0.55)
    case FemaleFocus => Present(s, 1, 0.6) && Shows(s, Female, 0.55)
    case AttireFormal => Present(s, 1, 0.6) && Shows(s, Formal, 0.45)
    case AttireAthletic => Present(s, 1, 0.6) && Shows(s, Athletic, 0.45)
    case AttireOutdoorTechnical => Present(s, 1, 0.6) && Shows(s, OutdoorTechnical, 0.45)
    case AttireWorkwearUniform => Present(s, 1, 0.6) && Shows(s, WorkwearUniform, 0.45)
    case AttireBusinessCasual => Present(s, 1, 0.6) && Shows(s, BusinessCasual, 0.50)
    case AttireStreetwear => Present(s, 1, 0.6) && Shows(s, Streetwear, 0.50)
    case AttireCasual => Present(s, 1, 0.6) && Shows(s, Casual, 0.50)
    case AttireLuxuryPremium => Present(s, 1, 0.6) && Shows(s, LuxuryPremium, 0.55)
    case AttireSmartOccasion => Present(s, 1, 0.6) && Shows(s, SmartOccasion, 0.55)
    case AttireLoungeComfort => Present(s, 1, 0.6) && Shows(s, LoungeComfort, 0.55)
  }

  /** Nothing says that nobody is looking at the screen. */
  predicate Watched(s: Signal) {
    s.attention.Some? && s.attention.value.engaged.Some? ==> s.attention.value.engaged.value >= 0.35
  }

  predicate TagHolds(t: AudienceTag, s: Signal) {
    AudienceSeen(t, s) && (t != Attract && t != General ==> Watched(s))
  }

  /** The hours of a time tag; late night runs over midnight. */
  predicate InWindow(t: TimeTag, hour: int) {
    match t
    case Morning => 6 <= hour <= 10
    case Lunch => 11 <= hour <= 13
    case Afternoon => 14 <= hour <= 16
    case HappyHour => 16 <= hour <= 18
    case Evening => 18 <= hour <= 21
    case LateNight => hour >= 22 || hour <= 5
    case AllDay => true
  }

  predicate HourOfDay(hour: int) {
    0 <= hour <= 23
  }

  /** Some audience tag holds; a manifest with time tags only asks for someone to be present. */
  ghost predicate AudienceHolds(tags: seq<Tag>, s: Signal) {
    if exists t :: Audience(t) in tags then exists t :: Audience(t) in tags && TagHolds(t, s)
    else (exists t :: Time(t) in tags) && Present(s, 1, 0.6)
  }

  /** The hour lies in some window, if the manifest has time tags at all. */
  ghost predicate HourFits(tags: seq<Tag>, hour: int) {
    (exists t :: Time(t) in tags) ==> exists t :: Time(t) in tags && InWindow(t, hour)
  }

  /** The declarative meaning of a manifest's tags. */
  ghost predicate Targeted(c: Creative, s: Signal, hour: int) {
    AudienceHolds(c.tags, s) && HourFits(c.tags, hour)
  }

  // ---------- single rules ----------

  lemma HoldAfterAdding(c: Conditions, k: Key, v: Value, s: Signal, hour: int)
    requires k !in c
    ensures AllHold(c[k := v], s, hour) <==> AllHold(c, s, hour) && Holds(k, v, s, hour)
  {
    if AllHold(c[k := v], s, hour) {
      assert k in c[k := v];
      forall j | j in c
        ensures Holds(j, c[j], s, hour)
      {
        assert j in c[k := v] && c[k := v][j] == c[j];
      }
    }
  }

  lemma CrowdHolds(key: Key, count: real, confidence: real, s: Signal, hour: int)
    requires key != PresenceConfidenceGte
    ensures AllHold(Crowd(key, count, confidence), s, hour)
       <==> Holds(key, Num(count), s, hour) && s.confidence >= confidence
  {
    HoldAfterAdding(map[], key, Num(count), s, hour);
    HoldAfterAdding(map[key := Num(count)], PresenceConfidenceGte, Num(confidence), s, hour);
    assert Crowd(key, count, confidence) == map[key := Num(count)][PresenceConfidenceGte := Num(confidence)];
  }

  lemma CrowdShowing(key: Key, count: real, confidence: real, b: Bin, share: real, s: Signal, hour: int)
    requires (key == PresenceCountGte || key == PresenceCountEq) && share > 0.0
    ensures AllHold(Crowd(key, count, confidence)[BinGte(b) := Num(share)], s, hour)
       <==> Holds(key, Num(count), s, hour) && s.confidence >= confidence && Shows(s, b, share)
  {
    CrowdHolds(key, count, confidence, s, hour);
    HoldAfterAdding(Crowd(key, count, confidence), BinGte(b), Num(share), s, hour);
    BinHolds(s, b, share, hour);
  }

  lemma AgeTableMeaning(t: AudienceTag, s: Signal, hour: int)
    requires DimensionOf(t) == Some(AgeDimension)
    ensures AllHold(AudienceConditions(t), s, hour) <==> AudienceSeen(t, s)
  {
    match t
    case SoloAdult => CrowdShowing(PresenceCountEq, 1.0, 0.7, Adult, 0.5, s, hour);
    case GroupAdults => CrowdShowing(PresenceCountGte, 2.0, 0.7, Adult, 0.5, s, hour);
    case AdultWithChild =>
      CrowdShowing(PresenceCountGte, 2.0, 0.7, Child, 0.2, s, hour);
      HoldAfterAdding(Crowd(PresenceCountGte, 2.0, 0.7)[BinGte(Child) := Num(0.2)], BinGte(Adult), Num(0.3), s, hour);
    case TeenagerGroup => CrowdShowing(PresenceCountGte, 1.0, 0.7, YoungAdult, 0.5, s, hour);
    case SeniorsTag => CrowdShowing(PresenceCountGte, 1.0, 0.7, Senior, 0.4, s, hour);
  }

  lemma AttireTableMeaning(t: AudienceTag, s: Signal, hour: int)
    requires DimensionOf(t) == Some(AttireDimension)
    ensures AllHold(AudienceConditions(t), s, hour) <==> AudienceSeen(t, s)
  {
    match t
    case AttireFormal => CrowdShowing(PresenceCountGte, 1.0, 0.6, Formal, 0.45, s, hour);
    case AttireAthletic => CrowdShowing(PresenceCountGte, 1.0, 0.6, Athletic, 0.45, s, hour);
    case AttireOutdoorTechnical => CrowdShowing(PresenceCountGte, 1.0, 0.6, OutdoorTechnical, 0.45, s, hour);
    case AttireWorkwearUniform => CrowdShowing(PresenceCountGte, 1.0, 0.6, WorkwearUniform, 0.45, s, hour);
    case AttireBusinessCasual => CrowdShowing(PresenceCountGte, 1.0, 0.6, BusinessCasual, 0.50, s, hour);
    case AttireStreetwear => CrowdShowing(PresenceCountGte, 1.0, 0.6, Streetwear, 0.50, s, hour);
    case AttireCasual => CrowdShowing(PresenceCountGte, 1.0, 0.6, Casual, 0.50, s, hour);
    case AttireLuxuryPremium => CrowdShowing(PresenceCountGte, 1.0, 0.6, LuxuryPremium, 0.55, s, hour);
    case AttireSmartOccasion => CrowdShowing(PresenceCountGte, 1.0, 0.6, SmartOccasion, 0.55, s, hour);
    case AttireLoungeComfort => CrowdShowing(PresenceCountGte, 1.0, 0.6, LoungeComfort, 0.55, s, hour);
  }

  /** The condition table says the same as the declarative reading. */
  lemma TableMeaning(t: AudienceTag, s: Signal, hour: int)
    ensures AllHold(AudienceConditions(t), s, hour) <==> AudienceSeen(t, s)
  {
    match DimensionOf(t)
    case None => CrowdHolds(PresenceCountGte, 1.0, 0.6, s, hour);
    case Some(AgeDimension) => AgeTableMeaning(t, s, hour);
    case Some(GenderDimension) =>
      CrowdShowing(PresenceCountGte, 1.0, 0.6, Male, 0.55, s, hour);
      CrowdShowing(PresenceCountGte, 1.0, 0.6, Female, 0.55, s, hour);
    case Some(AttireDimension) => AttireTableMeaning(t, s, hour);
  }

  /** The keys the tables use: presence, confidence and bins, all with numbers. */
  lemma TableKeys(t: AudienceTag, k: Key)
    requires k in AudienceConditions(t)
    ensures k == PresenceCountGte || k == PresenceCountEq || k == PresenceConfidenceGte || k.BinGte?
    ensures k == PresenceCountEq ==> t == SoloAdult
    ensures AudienceConditions(t)[k].Num?
  {
  }

  predicate InSlot(slot: Slot, hour: int) {
    slot.Some? ==> slot.value.0 <= hour <= slot.value.1
  }

  lemma SlotMeaning(c: Conditions, slot: Slot, s: Signal, hour: int)
    requires TimeHourGte !in c && TimeHourLte !in c
    ensures AllHold(WithSlot(c, slot), s, hour) <==> AllHold(c, s, hour) && InSlot(slot, hour)
  {
    if slot.Some? {
      HoldAfterAdding(c, TimeHourGte, Num(slot.value.0 as real), s, hour);
      HoldAfterAdding(c[TimeHourGte := Num(slot.value.0 as real)], TimeHourLte, Num(slot.value.1 as real), s, hour);
    }
  }

  /** The dict leaves attention and time of day open, as all tables do. */
  predicate Ungated(c: Conditions) {
    AttentionEngagedGte !in c && TimeHourGte !in c && TimeHourLte !in c
  }

  lemma TablesUngated(t: AudienceTag)
    ensures Ungated(AudienceConditions(t))
  {
    if AttentionEngagedGte in AudienceConditions(t) {
      TableKeys(t, AttentionEngagedGte);
    }
    if TimeHourGte in AudienceConditions(t) {
      TableKeys(t, TimeHourGte);
    }
    if TimeHourLte in AudienceConditions(t) {
      TableKeys(t, TimeHourLte);
    }
  }

  lemma GatedMeaning(c: Conditions, slot: Slot, s: Signal, hour: int)
    requires Ungated(c)
    ensures AllHold(WithSlot(c[AttentionEngagedGte := Num(ATTENTION_GATE)], slot), s, hour)
       <==> AllHold(c, s, hour) && Watched(s) && InSlot(slot, hour)
  {
    HoldAfterAdding(c, AttentionEngagedGte, Num(ATTENTION_GATE), s, hour);
    SlotMeaning(c[AttentionEngagedGte := Num(ATTENTION_GATE)], slot, s, hour);
  }

  /** A single-tag rule matches exactly when its tag holds within its slot. */
  lemma SingleMeaning(m: ManifestId, t: AudienceTag, w: Window, slot: Slot, bonus: int, s: Signal, hour: int)
    ensures Matches(Decode(SingleRule(m, t, w, slot, bonus)), s, hour) <==> TagHolds(t, s) && InSlot(slot, hour)
  {
    DecodedMeaning(SingleRule(m, t, w, slot, bonus), s, hour);
    TableMeaning(t, s, hour);
    TablesUngated(t);
    if t == Attract || t == General {
      SlotMeaning(AudienceConditions(t), slot, s, hour);
    } else {
      GatedMeaning(AudienceConditions(t), slot, s, hour);
    }
  }

  lemma TimeOnlyMeaning(m: ManifestId, w: (TimeTag, nat), slot: Slot, bonus: int, s: Signal, hour: int)
    ensures Matches(Decode(TimeOnlyRule(m, w, slot, bonus)), s, hour) <==> Present(s, 1, 0.6) && InSlot(slot, hour)
  {
    DecodedMeaning(TimeOnlyRule(m, w, slot, bonus), s, hour);
    CrowdHolds(PresenceCountGte, 1.0, 0.6, s, hour);
    SlotMeaning(BASIC_PRESENCE, slot, s, hour);
  }

  // ---------- cross-dimension rules ----------

  /** What the larger of two entries demands is what both demand, of every signal at every hour. */
  ghost predicate LargerMeansBoth(k: Key, a: Value, b: Value) {
    forall s, hour :: Holds(k, Larger(a, b), s, hour) <==> Holds(k, a, s, hour) && Holds(k, b, s, hour)
  }

  /** An entry of the type its key asks for. */
  predicate WellTyped(k: Key, v: Value) {
    if k.DemographicsSuppressedEq? then v.Flag? else v.Num?
  }

  predicate Whole(x: real) {
    x.Floor as real == x
  }

  /** For which entries of a key that is so: always for lower bounds; for upper bounds if no whole
      number lies between; for equal counts if they agree or no count can equal the larger; for
      flags if they agree. */
  predicate MergesExactly(k: Key, a: Value, b: Value)
    requires WellTyped(k, a) && WellTyped(k, b)
  {
    match k
    case PresenceCountLte => a.n.Floor == b.n.Floor
    case TimeHourLte => a.n.Floor == b.n.Floor
    case PresenceCountEq => a.n == b.n || !Whole(if b.n > a.n then b.n else a.n)
    case DemographicsSuppressedEq => a == b
    case _ => true
  }

  function Crowded(count: int): Signal {
    Signal(count, 1.0, Stability(true, false, 1), None, None, 0, false)
  }

  lemma BelowFloor(n: int, x: real)
    ensures n as real <= x <==> n <= x.Floor
  {
    if n > x.Floor {
      assert n as real >= (x.Floor + 1) as real;
    } else {
      assert n as real <= x.Floor as real;
    }
  }

  /** A signal and an hour at which the larger entry holds and one of the two does not. */
  lemma InexactMerge(k: Key, a: Value, b: Value)
    requires WellTyped(k, a) && WellTyped(k, b) && !MergesExactly(k, a, b)
    ensures !LargerMeansBoth(k, a, b)
  {
    if k.DemographicsSuppressedEq? {
      assert Holds(k, Larger(a, b), Crowded(1), 0);
      assert !Holds(k, a, Crowded(1), 0) || !Holds(k, b, Crowded(1), 0);
    } else {
      var n := Larger(a, b).n.Floor;
      assert Holds(k, Larger(a, b), Crowded(n), n);
      assert !Holds(k, a, Crowded(n), n) || !Holds(k, b, Crowded(n), n);
    }
  }

  /** Merging two entries of one key gives their conjunction exactly in these cases. */
  lemma EntryMergesIff(k: Key, a: Value, b: Value)
    requires WellTyped(k, a) && WellTyped(k, b)
    ensures LargerMeansBoth(k, a, b) <==> MergesExactly(k, a, b)
  {
    if !MergesExactly(k, a, b) {
      InexactMerge(k, a, b);
    } else {
      forall s, hour
        ensures Holds(k, Larger(a, b), s, hour) <==> Holds(k, a, s, hour) && Holds(k, b, s, hour)
      {
        match k
        case PresenceCountLte =>
          BelowFloor(s.count, a.n);
          BelowFloor(s.count, b.n);
        case TimeHourLte =>
          BelowFloor(hour, a.n);
          BelowFloor(hour, b.n);
        case PresenceCountEq => assert s.count as real == Larger(a, b).n ==> Whole(Larger(a, b).n);
        case _ =>
      }
    }
  }

  /** The dicts overlap only in entries that merge exactly. */
  ghost predicate MergeableDicts(a: Conditions, b: Conditions) {
    forall k :: k in a && k in b ==>
      WellTyped(k, a[k]) && WellTyped(k, b[k]) && MergesExactly(k, a[k], b[k])
  }

  /** For such dicts, merging means conjunction. */
  lemma MergeMeaning(a: Conditions, b: Conditions, s: Signal, hour: int)
    requires MergeableDicts(a, b)
    ensures AllHold(Merged(a, b), s, hour) <==> AllHold(a, s, hour) && AllHold(b, s, hour)
  {
    var both := Merged(a, b);
    forall k
      ensures k in both <==> k in a || k in b
      ensures k in both ==>
                (Holds(k, both[k], s, hour)
                 <==> (k in a ==> Holds(k, a[k], s, hour)) && (k in b ==> Holds(k, b[k], s, hour)))
    {
      if k in a && k in b {
        EntryMergesIff(k, a[k], b[k]);
      }
    }
  }

  /** Upper bounds do not merge: with a maximum count on both sides the merged dict accepts a
      crowd that one of the two rejects. No tag has such an entry. */
  lemma MergeLosesUpperBounds(s: Signal, hour: int)
    requires s.count == 4
    ensures var a, b: Conditions := map[PresenceCountLte := Num(2.0)], map[PresenceCountLte := Num(5.0)];
            AllHold(Merged(a, b), s, hour) && !AllHold(a, s, hour)
  {
    var a: Conditions := map[PresenceCountLte := Num(2.0)];
    assert !Holds(PresenceCountLte, a[PresenceCountLte], s, hour);
  }

  predicate Crossing(a: AudienceTag, b: AudienceTag) {
    DimensionOf(a).Some? && DimensionOf(b).Some? && DimensionOf(a) != DimensionOf(b)
  }

  lemma TablesMergeable(a: AudienceTag, b: AudienceTag)
    requires Crossing(a, b)
    ensures MergeableDicts(AudienceConditions(a), AudienceConditions(b))
  {
    forall k | k in AudienceConditions(a) && k in AudienceConditions(b)
      ensures WellTyped(k, AudienceConditions(a)[k]) && WellTyped(k, AudienceConditions(b)[k])
      ensures MergesExactly(k, AudienceConditions(a)[k], AudienceConditions(b)[k])
    {
      TableKeys(a, k);
      TableKeys(b, k);
    }
  }

  /** A rule with merged conditions, for any two dicts that may be merged. */
  lemma MergedRuleMeaning(r: RawRule, a: Conditions, b: Conditions, slot: Slot, s: Signal, hour: int)
    requires ConditionsOf(r) == PairConditions(a, b, slot)
    requires MergeableDicts(a, b) && Ungated(a) && Ungated(b)
    ensures Matches(Decode(r), s, hour)
       <==> AllHold(a, s, hour) && AllHold(b, s, hour) && Watched(s) && InSlot(slot, hour)
  {
    DecodedMeaning(r, s, hour);
    MergeMeaning(a, b, s, hour);
    GatedMeaning(Merged(a, b), slot, s, hour);
  }

  lemma CrossingTablesMerge(a: AudienceTag, b: AudienceTag)
    requires Crossing(a, b)
    ensures MergeableDicts(AudienceConditions(a), AudienceConditions(b))
    ensures Ungated(AudienceConditions(a)) && Ungated(AudienceConditions(b))
  {
    TablesMergeable(a, b);
    TablesUngated(a);
    TablesUngated(b);
  }

  lemma DimensionedTagHolds(t: AudienceTag, s: Signal, hour: int)
    requires DimensionOf(t).Some?
    ensures AllHold(AudienceConditions(t), s, hour) && Watched(s) <==> TagHolds(t, s)
  {
    TableMeaning(t, s, hour);
  }

  /** A cross-dimension rule matches exactly when both its single-tag rules do, in the same slot. */
  lemma PairMeaning(m: ManifestId, a: AudienceTag, b: AudienceTag, w: Window, slot: Slot, bonus: int, s: Signal, hour: int)
    requires Crossing(a, b)
    ensures Matches(Decode(PairRule(m, a, b, w, slot, bonus)), s, hour)
       <==> && Matches(Decode(SingleRule(m, a, w, slot, bonus)), s, hour)
            && Matches(Decode(SingleRule(m, b, w, slot, bonus)), s, hour)
  {
    SingleMeaning(m, a, w, slot, bonus, s, hour);
    SingleMeaning(m, b, w, slot, bonus, s, hour);
    PairHolds(m, a, b, w, slot, bonus, s, hour);
  }

  lemma PairHolds(m: ManifestId, a: AudienceTag, b: AudienceTag, w: Window, slot: Slot, bonus: int, s: Signal, hour: int)
    requires Crossing(a, b)
    ensures Matches(Decode(PairRule(m, a, b, w, slot, bonus)), s, hour)
       <==> TagHolds(a, s) && TagHolds(b, s) && InSlot(slot, hour)
  {
    CrossingTablesMerge(a, b);
    DimensionedTagHolds(a, s, hour);
    DimensionedTagHolds(b, s, hour);
    MergedRuleMeaning(PairRule(m, a, b, w, slot, bonus), AudienceConditions(a), AudienceConditions(b), slot, s, hour);
  }

  /** A cross-dimension rule ranks exactly 3 above each of its single-tag rules. */
  lemma PairOutranksSingles(m: ManifestId, a: AudienceTag, b: AudienceTag, w: Window, slot: Slot, bonus: int)
    requires Crossing(a, b)
    ensures Decode(PairRule(m, a, b, w, slot, bonus)).priority
         == Decode(SingleRule(m, a, w, slot, bonus)).priority + 3
         == Decode(SingleRule(m, b, w, slot, bonus)).priority + 3
  {
  }

  function CountOf(tags: seq<AudienceTag>, d: Dimension): nat {
    if tags == [] then 0
    else CountOf(tags[1..], d) + if DimensionOf(tags[0]) == Some(d) then 1 else 0
  }

  ghost predicate AllDimensioned(tags: seq<AudienceTag>) {
    forall i :: 0 <= i < |tags| ==> DimensionOf(tags[i]).Some?
  }

  /** The number of pairs of tags of different dimensions. */
  function CrossingPairs(tags: seq<AudienceTag>): nat {
    var age, gender, attire :=
      CountOf(tags, AgeDimension), CountOf(tags, GenderDimension), CountOf(tags, AttireDimension);
    age * gender + age * attire + gender * attire
  }

  /** How many of the tags are of another dimension than the given tag. */
  function OthersOf(a: AudienceTag, later: seq<AudienceTag>): nat {
    if later == [] then 0
    else OthersOf(a, later[..|later| - 1]) + if DimensionOf(a) != DimensionOf(later[|later| - 1]) then 1 else 0
  }

  lemma {:induction false} RowLength(m: ManifestId, a: AudienceTag, later: seq<AudienceTag>, w: Window, slot: Slot, bonus: int)
    ensures |PairsWith(m, a, later, w, slot, bonus)| == OthersOf(a, later)
  {
    if later != [] {
      RowLength(m, a, later[..|later| - 1], w, slot, bonus);
    }
  }

  lemma {:induction false} CountOfAppend(tags: seq<AudienceTag>, t: AudienceTag, d: Dimension)
    ensures CountOf(tags + [t], d) == CountOf(tags, d) + if DimensionOf(t) == Some(d) then 1 else 0
  {
    if tags != [] {
      assert (tags + [t])[1..] == tags[1..] + [t];
      CountOfAppend(tags[1..], t, d);
    } else {
      assert (tags + [t])[1..] == [];
    }
  }

  lemma {:induction false} OthersByDimension(a: AudienceTag, later: seq<AudienceTag>)
    requires DimensionOf(a).Some? && AllDimensioned(later)
    ensures OthersOf(a, later)
         == CountOf(later, AgeDimension) + CountOf(later, GenderDimension) + CountOf(later, AttireDimension)
            - CountOf(later, DimensionOf(a).value)
  {
    if later != [] {
      var before, last := later[..|later| - 1], later[|later| - 1];
      OthersByDimension(a, before);
      assert later == before + [last];
      CountOfAppend(before, last, AgeDimension);
      CountOfAppend(before, last, GenderDimension);
      CountOfAppend(before, last, AttireDimension);
    }
  }

  lemma PairArithmetic(x: nat, y: nat, z: nat)
    ensures (x + 1) * y + (x + 1) * z + y * z == x * y + x * z + y * z + y + z
  {
  }

  lemma CrossingPairsStep(tags: seq<AudienceTag>)
    requires tags != [] && AllDimensioned(tags)
    ensures CrossingPairs(tags) == CrossingPairs(tags[1..]) + OthersOf(tags[0], tags[1..])
  {
    OthersByDimension(tags[0], tags[1..]);
    var age, gender, attire :=
      CountOf(tags[1..], AgeDimension), CountOf(tags[1..], GenderDimension), CountOf(tags[1..], AttireDimension);
    match DimensionOf(tags[0]).value
    case AgeDimension => PairArithmetic(age, gender, attire);
    case GenderDimension => GenderArithmetic(age, gender, attire);
    case AttireDimension => AttireArithmetic(age, gender, attire);
  }

  lemma GenderArithmetic(x: nat, y: nat, z: nat)
    ensures x * (y + 1) + x * z + (y + 1) * z == x * y + x * z + y * z + x + z
  {
  }

  lemma AttireArithmetic(x: nat, y: nat, z: nat)
    ensures x * y + x * (z + 1) + y * (z + 1) == x * y + x * z + y * z + x + y
  {
  }

  lemma {:induction false} PairsLength(m: ManifestId, tags: seq<AudienceTag>, n: nat, w: Window, slot: Slot, bonus: int)
    requires n <= |tags| && AllDimensioned(tags)
    ensures |Pairs(m, tags, n, w, slot, bonus)| + CrossingPairs(tags[n..]) == CrossingPairs(tags)
  {
    if n == 0 {
      assert tags[0..] == tags;
    } else {
      PairsLength(m, tags, n - 1, w, slot, bonus);
      RowLength(m, tags[n - 1], tags[n..], w, slot, bonus);
      assert tags[n - 1..][1..] == tags[n..];
      CrossingPairsStep(tags[n - 1..]);
    }
  }

  lemma {:induction false} DimensionedCounts(audience: seq<AudienceTag>, d: Dimension)
    ensures AllDimensioned(Dimensioned(audience))
    ensures CountOf(Dimensioned(audience), d) == CountOf(audience, d)
  {
    if audience != [] {
      var before, last := audience[..|audience| - 1], audience[|audience| - 1];
      DimensionedCounts(before, d);
      assert audience == before + [last];
      CountOfAppend(before, last, d);
      CountOfAppend(Dimensioned(before), last, d);
    }
  }

  /** Each slot gets age * gender + age * attire + gender * attire cross-dimension rules. */
  lemma CrossRuleCount(m: ManifestId, audience: seq<AudienceTag>, w: Window, slot: Slot, bonus: int)
    ensures |AllPairs(m, audience, w, slot, bonus)| == CrossingPairs(audience)
  {
    DimensionedPairs(audience);
    AllRowsLength(m, Dimensioned(audience), w, slot, bonus);
  }

  lemma NoCrossingPairs(tags: seq<AudienceTag>)
    requires tags == []
    ensures CrossingPairs(tags) == 0
  {
  }

  lemma AllRowsLength(m: ManifestId, tags: seq<AudienceTag>, w: Window, slot: Slot, bonus: int)
    requires AllDimensioned(tags)
    ensures |Pairs(m, tags, |tags|, w, slot, bonus)| == CrossingPairs(tags)
  {
    PairsLength(m, tags, |tags|, w, slot, bonus);
    NoCrossingPairs(tags[|tags|..]);
  }

  lemma DimensionedPairs(audience: seq<AudienceTag>)
    ensures AllDimensioned(Dimensioned(audience))
    ensures CrossingPairs(Dimensioned(audience)) == CrossingPairs(audience)
  {
    DimensionedCounts(audience, AgeDimension);
    DimensionedCounts(audience, GenderDimension);
    DimensionedCounts(audience, AttireDimension);
  }

  // ---------- the rules of one manifest ----------

  ghost predicate SomeMatches(rules: seq<RawRule>, s: Signal, hour: int) {
    exists i :: 0 <= i < |rules| && Matches(Decode(rules[i]), s, hour)
  }

  lemma SomeMatchesConcat(a: seq<RawRule>, b: seq<RawRule>, s: Signal, hour: int)
    ensures SomeMatches(a + b, s, hour) <==> SomeMatches(a, s, hour) || SomeMatches(b, s, hour)
  {
    if SomeMatches(a, s, hour) {
      var i :| 0 <= i < |a| && Matches(Decode(a[i]), s, hour);
      assert (a + b)[i] == a[i];
    }
    if SomeMatches(b, s, hour) {
      var i :| 0 <= i < |b| && Matches(Decode(b[i]), s, hour);
      assert (a + b)[|a| + i] == b[i];
    }
  }

  lemma SomeMatchesOne(r: RawRule, s: Signal, hour: int)
    ensures SomeMatches([r], s, hour) <==> Matches(Decode(r), s, hour)
  {
    if Matches(Decode(r), s, hour) {
      assert [r][0] == r;
    }
  }

  lemma {:induction false} SinglesMeaning(m: ManifestId, audience: seq<AudienceTag>, w: Window, slot: Slot, bonus: int, s: Signal, hour: int)
    ensures SomeMatches(Singles(m, audience, w, slot, bonus), s, hour)
       <==> (exists t :: t in audience && TagHolds(t, s)) && InSlot(slot, hour)
  {
    if audience != [] {
      var before, last := audience[..|audience| - 1], audience[|audience| - 1];
      SinglesMeaning(m, before, w, slot, bonus, s, hour);
      var rule := SingleRule(m, last, w, slot, bonus);
      SomeMatchesConcat(Singles(m, before, w, slot, bonus), [rule], s, hour);
      SomeMatchesOne(rule, s, hour);
      SingleMeaning(m, last, w, slot, bonus, s, hour);
      assert forall t :: t in audience <==> t in before || t == last;
    }
  }

  lemma {:induction false} RowImplies(m: ManifestId, a: AudienceTag, later: seq<AudienceTag>, w: Window, slot: Slot, bonus: int, s: Signal, hour: int)
    requires DimensionOf(a).Some? && AllDimensioned(later)
    ensures SomeMatches(PairsWith(m, a, later, w, slot, bonus), s, hour) ==> TagHolds(a, s) && InSlot(slot, hour)
  {
    if later != [] {
      var before, last := later[..|later| - 1], later[|later| - 1];
      RowImplies(m, a, before, w, slot, bonus, s, hour);
      SomeMatchesConcat(PairsWith(m, a, before, w, slot, bonus), PairIfCrossing(m, a, last, w, slot, bonus), s, hour);
      if Crossing(a, last) {
        SomeMatchesOne(PairRule(m, a, last, w, slot, bonus), s, hour);
        PairHolds(m, a, last, w, slot, bonus, s, hour);
      }
    }
  }

  ghost predicate SomeTagHolds(tags: seq<AudienceTag>, s: Signal) {
    exists t :: t in tags && TagHolds(t, s)
  }

  lemma {:induction false} PairsImply(m: ManifestId, tags: seq<AudienceTag>, n: nat, w: Window, slot: Slot, bonus: int, s: Signal, hour: int)
    requires n <= |tags| && AllDimensioned(tags)
    ensures SomeMatches(Pairs(m, tags, n, w, slot, bonus), s, hour) ==> SomeTagHolds(tags, s) && InSlot(slot, hour)
  {
    if n > 0 {
      PairsImply(m, tags, n - 1, w, slot, bonus, s, hour);
      RowImpliesSome(m, tags, n - 1, w, slot, bonus, s, hour);
      SomeMatchesConcat(Pairs(m, tags, n - 1, w, slot, bonus), PairsWith(m, tags[n - 1], tags[n..], w, slot, bonus), s, hour);
    }
  }

  lemma RowImpliesSome(m: ManifestId, tags: seq<AudienceTag>, i: nat, w: Window, slot: Slot, bonus: int, s: Signal, hour: int)
    requires i < |tags| && AllDimensioned(tags)
    ensures SomeMatches(PairsWith(m, tags[i], tags[i + 1..], w, slot, bonus), s, hour)
        ==> SomeTagHolds(tags, s) && InSlot(slot, hour)
  {
    RowImplies(m, tags[i], tags[i + 1..], w, slot, bonus, s, hour);
    assert tags[i] in tags;
  }

  lemma {:induction false} DimensionedMembers(audience: seq<AudienceTag>)
    ensures forall t :: t in Dimensioned(audience) ==> t in audience
  {
    if audience != [] {
      DimensionedMembers(audience[..|audience| - 1]);
    }
  }

  /** Cross-dimension rules never widen the audience. */
  lemma AudienceRulesMeaning(m: ManifestId, audience: seq<AudienceTag>, w: Window, slot: Slot, bonus: int, s: Signal, hour: int)
    ensures SomeMatches(AudienceRules(m, audience, w, slot, bonus), s, hour)
       <==> (exists t :: t in audience && TagHolds(t, s)) && InSlot(slot, hour)
  {
    var singles, pairs := Singles(m, audience, w, slot, bonus), AllPairs(m, audience, w, slot, bonus);
    SomeMatchesConcat(singles, pairs, s, hour);
    SinglesMeaning(m, audience, w, slot, bonus, s, hour);
    if SomeMatches(pairs, s, hour) {
      DimensionedCounts(audience, AgeDimension);
      DimensionedMembers(audience);
      PairsImply(m, Dimensioned(audience), |Dimensioned(audience)|, w, slot, bonus, s, hour);
    }
  }

  /** Someone the audience tags ask for is there; with no such tag, anyone. */
  ghost predicate AnyTagHolds(audience: seq<AudienceTag>, s: Signal) {
    if audience != [] then exists t :: t in audience && TagHolds(t, s) else Present(s, 1, 0.6)
  }

  lemma SlotRulesMeaning(m: ManifestId, audience: seq<AudienceTag>, w: (TimeTag, nat), slot: Slot, bonus: int, s: Signal, hour: int)
    ensures SomeMatches(SlotRules(m, audience, w, slot, bonus), s, hour)
       <==> AnyTagHolds(audience, s) && InSlot(slot, hour)
  {
    if audience != [] {
      AudienceRulesMeaning(m, audience, Some(w), slot, bonus, s, hour);
    } else {
      SomeMatchesOne(TimeOnlyRule(m, w, slot, bonus), s, hour);
      TimeOnlyMeaning(m, w, slot, bonus, s, hour);
    }
  }

  /** The hour lies in one of the tag's first n windows. */
  ghost predicate InSomeSlot(t: TimeTag, n: nat, hour: int)
    requires n <= |Windows(t)|
  {
    exists i :: 0 <= i < n && InSlot(Windows(t)[i], hour)
  }

  lemma {:induction false} WindowRulesMeaning(m: ManifestId, audience: seq<AudienceTag>, t: TimeTag, n: nat, bonus: int, s: Signal, hour: int)
    requires n <= |Windows(t)|
    ensures SomeMatches(WindowRules(m, audience, t, n, bonus), s, hour)
       <==> AnyTagHolds(audience, s) && InSomeSlot(t, n, hour)
  {
    if n > 0 {
      var slot := Windows(t)[n - 1];
      WindowRulesMeaning(m, audience, t, n - 1, bonus, s, hour);
      SlotRulesMeaning(m, audience, (t, n - 1), slot, bonus, s, hour);
      SomeMatchesConcat(WindowRules(m, audience, t, n - 1, bonus),
                        SlotRules(m, audience, (t, n - 1), slot, bonus), s, hour);
      InSomeSlotStep(t, n, hour);
    }
  }

  lemma InSomeSlotStep(t: TimeTag, n: nat, hour: int)
    requires 0 < n <= |Windows(t)|
    ensures InSomeSlot(t, n, hour) <==> InSomeSlot(t, n - 1, hour) || InSlot(Windows(t)[n - 1], hour)
  {
  }

  /** The windows of a tag, the two halves of late night included, cover exactly its hours. */
  lemma WindowsCoverHours(t: TimeTag, hour: int)
    requires HourOfDay(hour)
    ensures InSomeSlot(t, |Windows(t)|, hour) <==> InWindow(t, hour)
  {
    if InWindow(t, hour) {
      assert InSlot(Windows(t)[if t == LateNight && hour <= 5 then 1 else 0], hour);
    }
  }

  lemma TimeTagMeaning(m: ManifestId, audience: seq<AudienceTag>, t: TimeTag, bonus: int, s: Signal, hour: int)
    requires HourOfDay(hour)
    ensures SomeMatches(WindowRules(m, audience, t, |Windows(t)|, bonus), s, hour)
       <==> AnyTagHolds(audience, s) && InWindow(t, hour)
  {
    WindowRulesMeaning(m, audience, t, |Windows(t)|, bonus, s, hour);
    WindowsCoverHours(t, hour);
  }

  lemma {:induction false} TimeRulesMeaning(m: ManifestId, audience: seq<AudienceTag>, times: seq<TimeTag>, bonus: int, s: Signal, hour: int)
    requires HourOfDay(hour)
    ensures SomeMatches(TimeRules(m, audience, times, bonus), s, hour)
       <==> AnyTagHolds(audience, s) && SomeWindow(times, hour)
  {
    if times != [] {
      var before, last := times[..|times| - 1], times[|times| - 1];
      TimeRulesMeaning(m, audience, before, bonus, s, hour);
      TimeTagMeaning(m, audience, last, bonus, s, hour);
      SomeMatchesConcat(TimeRules(m, audience, before, bonus),
                        WindowRules(m, audience, last, |Windows(last)|, bonus), s, hour);
      SomeWindowStep(times, hour);
    }
  }

  ghost predicate SomeWindow(times: seq<TimeTag>, hour: int) {
    exists t :: t in times && InWindow(t, hour)
  }

  lemma SomeWindowStep(times: seq<TimeTag>, hour: int)
    requires times != []
    ensures SomeWindow(times, hour)
       <==> SomeWindow(times[..|times| - 1], hour) || InWindow(times[|times| - 1], hour)
  {
    assert forall t :: t in times <==> t in times[..|times| - 1] || t == times[|times| - 1];
  }

  lemma {:induction false} TagMembers(tags: seq<Tag>)
    ensures forall t :: t in AudienceTags(tags) <==> Audience(t) in tags
    ensures forall t :: t in TimeTags(tags) <==> Time(t) in tags
  {
    if tags != [] {
      TagMembers(tags[..|tags| - 1]);
    }
  }

  /** Compiling preserves meaning: some targeting rule of a manifest matches a signal at an
      hour of the day exactly when the manifest's tags say so. */
  lemma CompilationPreservesMeaning(c: Creative, s: Signal, hour: int)
    requires HourOfDay(hour)
    ensures SomeMatches(TargetingRules(c), s, hour) <==> Targeted(c, s, hour)
  {
    var audience, times, bonus := AudienceTags(c.tags), TimeTags(c.tags), TotalBonus(c.tags);
    TagMembers(c.tags);
    if times != [] {
      assert times[0] in times;
      TimeRulesMeaning(c.manifestId, audience, times, bonus, s, hour);
    } else {
      AudienceRulesMeaning(c.manifestId, audience, None, None, bonus, s, hour);
    }
    if audience != [] {
      assert audience[0] in audience;
    }
  }
}
