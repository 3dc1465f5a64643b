/**
 Compiling the operator's tags on a manifest to rules: the tag tables, the specification
 of the generated rules as functions, and the generator's loops proved against it.
 */
module RuleCompiler {
  import opened Wrappers
  import opened Policy
  import opened RuleFile

  // ---------- tags and tables ----------

  datatype AudienceTag =
    | Attract | General
    | SoloAdult | GroupAdults | AdultWithChild | TeenagerGroup | SeniorsTag
    | MaleFocus | FemaleFocus
    | AttireFormal | AttireBusinessCasual | AttireCasual | AttireAthletic | AttireOutdoorTechnical
    | AttireWorkwearUniform | AttireStreetwear | AttireLuxuryPremium | AttireLoungeComfort
    | AttireSmartOccasion

  datatype TimeTag = Morning | Lunch | Afternoon | HappyHour | Evening | LateNight | AllDay

  datatype OccasionTag = Featured | LimitedTime | Seasonal

  datatype FrequencyTag = Primary | Recurring | Ambient

  datatype Tag =
    | Audience(audience: AudienceTag)
    | Time(time: TimeTag)
    | Occasion(occasion: OccasionTag)
    | Frequency(frequency: FrequencyTag)
    | UnknownTag(name: string)

  datatype Creative = Creative(manifestId: ManifestId, tags: seq<Tag>)

  datatype Dimension = AgeDimension | GenderDimension | AttireDimension

  function DimensionOf(t: AudienceTag): Option<Dimension> {
    match t
    case Attract | General => None
    case SoloAdult | GroupAdults | AdultWithChild | TeenagerGroup | SeniorsTag => Some(AgeDimension)
    case MaleFocus | FemaleFocus => Some(GenderDimension)
    case _ => Some(AttireDimension)
  }

  function AudienceName(t: AudienceTag): string {
    match t
    case Attract => "attract"
    case General => "general"
    case SoloAdult => "solo_adult"
    case GroupAdults => "group_adults"
    case AdultWithChild => "adult_with_child"
    case TeenagerGroup => "teenager_group"
    case SeniorsTag => "seniors"
    case MaleFocus => "male_focus"
    case FemaleFocus => "female_focus"
    case AttireFormal => "attire_formal"
    case AttireBusinessCasual => "attire_business_casual"
    case AttireCasual => "attire_casual"
    case AttireAthletic => "attire_athletic"
    case AttireOutdoorTechnical => "attire_outdoor_technical"
    case AttireWorkwearUniform => "attire_workwear_uniform"
    case AttireStreetwear => "attire_streetwear"
    case AttireLuxuryPremium => "attire_luxury_premium"
    case AttireLoungeComfort => "attire_lounge_comfort"
    case AttireSmartOccasion => "attire_smart_occasion"
  }

  function TimeName(t: TimeTag): string {
    match t
    case Morning => "time_morning"
    case Lunch => "time_lunch"
    case Afternoon => "time_afternoon"
    case HappyHour => "time_happy_hour"
    case Evening => "time_evening"
    case LateNight => "time_late_night"
    case AllDay => "time_all_day"
  }

  function Crowd(key: Key, count: real, confidence: real): Conditions {
    map[key := Num(count), PresenceConfidenceGte := Num(confidence)]
  }

  function Attired(bin: Bin, threshold: real): Conditions {
    Crowd(PresenceCountGte, 1.0, 0.6)[BinGte(bin) := Num(threshold)]
  }

  const BASIC_PRESENCE: Conditions := Crowd(PresenceCountGte, 1.0, 0.6)

  function AudienceConditions(t: AudienceTag): Conditions {
    match t
    case Attract => map[]
    case General => Crowd(PresenceCountGte, 1.0, 0.6)
    case SoloAdult => Crowd(PresenceCountEq, 1.0, 0.7)[BinGte(Adult) := Num(0.5)]
    case GroupAdults => Crowd(PresenceCountGte, 2.0, 0.7)[BinGte(Adult) := Num(0.5)]
    case AdultWithChild =>
      Crowd(PresenceCountGte, 2.0, 0.7)[BinGte(Child) := Num(0.2)][BinGte(Adult) := Num(0.3)]
    case TeenagerGroup => Crowd(PresenceCountGte, 1.0, 0.7)[BinGte(YoungAdult) := Num(0.5)]
    case SeniorsTag => Crowd(PresenceCountGte, 1.0, 0.7)[BinGte(Senior) := Num(0.4)]
    case MaleFocus => Crowd(PresenceCountGte, 1.0, 0.6)[BinGte(Male) := Num(0.55)]
    case FemaleFocus => Crowd(PresenceCountGte, 1.0, 0.6)[BinGte(Female) := Num(0.55)]
    case AttireFormal => Attired(Formal, 0.45)
    case AttireAthletic => Attired(Athletic, 0.45)
    case AttireOutdoorTechnical => Attired(OutdoorTechnical, 0.45)
    case AttireWorkwearUniform => Attired(WorkwearUniform, 0.45)
    case AttireBusinessCasual => Attired(BusinessCasual, 0.50)
    case AttireStreetwear => Attired(Streetwear, 0.50)
    case AttireCasual => Attired(Casual, 0.50)
    case AttireLuxuryPremium => Attired(LuxuryPremium, 0.55)
    case AttireSmartOccasion => Attired(SmartOccasion, 0.55)
    case AttireLoungeComfort => Attired(LoungeComfort, 0.55)
  }

  /** A window of hours, inclusive at both ends; None is no restriction. */
  type Slot = Option<(int, int)>

  function Windows(t: TimeTag): seq<Slot> {
    match t
    case Morning => [Some((6, 10))]
    case Lunch => [Some((11, 13))]
    case Afternoon => [Some((14, 16))]
    case HappyHour => [Some((16, 18))]
    case Evening => [Some((18, 21))]
    case LateNight => [Some((22, 23)), Some((0, 5))]
    case AllDay => [None]
  }

  function BasePriority(t: AudienceTag): int {
    match t
    case Attract => 0
    case General => 5
    case _ => 10
  }

  const TIME_ONLY_BOOST := 10
  const TIME_AUDIENCE_BOOST := 20
  const CROSS_DIMENSION_BONUS := 3
  const ATTENTION_GATE := 0.35

  function OccasionBonus(o: OccasionTag): int {
    match o
    case Featured => 15
    case LimitedTime => 30
    case Seasonal => 0
  }

  // ---------- conditions ----------

  function InjectAttentionGate(c: Conditions, t: AudienceTag): Conditions {
    if t == Attract || t == General then c else c[AttentionEngagedGte := Num(ATTENTION_GATE)]
  }

  function WithSlot(c: Conditions, slot: Slot): Conditions {
    if slot == None then c
    else c[TimeHourGte := Num(slot.value.0 as real)][TimeHourLte := Num(slot.value.1 as real)]
  }

  function AsNumber(v: Value): real {
    match v
    case Num(n) => n
    case Flag(b) => if b then 1.0 else 0.0
  }

  function Larger(a: Value, b: Value): Value {
    if AsNumber(b) > AsNumber(a) then b else a
  }

  /** Both dicts' entries, with the larger value where they share a key. */
  function Merged(a: Conditions, b: Conditions): Conditions {
    map k | k in a.Keys + b.Keys ::
      if k !in a then b[k] else if k !in b then a[k] else Larger(a[k], b[k])
  }

  method MergeConditions(a: Conditions, b: Conditions) returns (merged: Conditions)
    ensures merged == Merged(a, b)
  {
    merged := a;
    var pending := b.Keys;
    while pending != {}
      invariant pending <= b.Keys
      invariant merged == Merged(a, map k | k in b && k !in pending :: b[k])
      decreases pending
    {
      var key :| key in pending;
      if key !in merged {
        merged := merged[key := b[key]];
      } else {
        merged := merged[key := Larger(merged[key], b[key])];
      }
      pending := pending - {key};
    }
    assert b == map k | k in b && k !in pending :: b[k];
  }

  // ---------- the generated rules ----------

  /** A time tag and the index of one of its windows, or None where there is no time tag. */
  type Window = Option<(TimeTag, nat)>

  function SlotSuffix(index: nat): string {
    if index == 0 then "" else if index == 1 then "-s1" else "-s"
  }

  function WindowPart(w: Window): string {
    if w == None then "" else "-" + TimeName(w.value.0) + SlotSuffix(w.value.1)
  }

  function TimeBoost(w: Window): int {
    if w == None then 0 else TIME_AUDIENCE_BOOST
  }

  function Generated(id: string, priority: int, weight: real, manifest: ManifestId, c: Conditions): RawRule {
    RawRule(id, Some(priority), Some(weight), manifest, Some(c))
  }

  function SingleRule(m: ManifestId, t: AudienceTag, w: Window, slot: Slot, bonus: int): RawRule {
    Generated("autogen-" + m + WindowPart(w) + "-" + AudienceName(t),
              BasePriority(t) + TimeBoost(w) + bonus, 1.0, m,
              WithSlot(InjectAttentionGate(AudienceConditions(t), t), slot))
  }

  function PairConditions(a: Conditions, b: Conditions, slot: Slot): Conditions {
    WithSlot(Merged(a, b)[AttentionEngagedGte := Num(ATTENTION_GATE)], slot)
  }

  function PairRule(m: ManifestId, a: AudienceTag, b: AudienceTag, w: Window, slot: Slot, bonus: int): RawRule {
    Generated("autogen-" + m + WindowPart(w) + "-" + AudienceName(a) + "+" + AudienceName(b),
              10 + CROSS_DIMENSION_BONUS + TimeBoost(w) + bonus, 1.0, m,
              PairConditions(AudienceConditions(a), AudienceConditions(b), slot))
  }

  function TimeOnlyRule(m: ManifestId, w: (TimeTag, nat), slot: Slot, bonus: int): RawRule {
    Generated("autogen-" + m + WindowPart(Some(w)), TIME_ONLY_BOOST + bonus, 1.0, m,
              WithSlot(BASIC_PRESENCE, slot))
  }

  function Singles(m: ManifestId, audience: seq<AudienceTag>, w: Window, slot: Slot, bonus: int): seq<RawRule> {
    if audience == [] then []
    else Singles(m, audience[..|audience| - 1], w, slot, bonus)
         + [SingleRule(m, audience[|audience| - 1], w, slot, bonus)]
  }

  /** The tags that belong to a demographic dimension. */
  function Dimensioned(audience: seq<AudienceTag>): seq<AudienceTag> {
    if audience == [] then []
    else
      var before, last := Dimensioned(audience[..|audience| - 1]), audience[|audience| - 1];
      if DimensionOf(last).Some? then before + [last] else before
  }

  /** The pair rule of two tags, if they are of different dimensions. */
  function PairIfCrossing(m: ManifestId, a: AudienceTag, b: AudienceTag, w: Window, slot: Slot, bonus: int): seq<RawRule> {
    if DimensionOf(a) != DimensionOf(b) then [PairRule(m, a, b, w, slot, bonus)] else []
  }

  /** The pair rules of one tag with each of some later tags. */
  function PairsWith(m: ManifestId, a: AudienceTag, later: seq<AudienceTag>, w: Window, slot: Slot, bonus: int)
    : seq<RawRule>
  {
    if later == [] then []
    else PairsWith(m, a, later[..|later| - 1], w, slot, bonus)
         + PairIfCrossing(m, a, later[|later| - 1], w, slot, bonus)
  }

  /** The pair rules whose first tag is among the first n. */
  function Pairs(m: ManifestId, tags: seq<AudienceTag>, n: nat, w: Window, slot: Slot, bonus: int): seq<RawRule>
    requires n <= |tags|
  {
    if n == 0 then []
    else Pairs(m, tags, n - 1, w, slot, bonus) + PairsWith(m, tags[n - 1], tags[n..], w, slot, bonus)
  }

  function AllPairs(m: ManifestId, audience: seq<AudienceTag>, w: Window, slot: Slot, bonus: int): seq<RawRule> {
    Pairs(m, Dimensioned(audience), |Dimensioned(audience)|, w, slot, bonus)
  }

  function AudienceRules(m: ManifestId, audience: seq<AudienceTag>, w: Window, slot: Slot, bonus: int): seq<RawRule> {
    Singles(m, audience, w, slot, bonus) + AllPairs(m, audience, w, slot, bonus)
  }

  /** The rules of one window of a time tag. */
  function SlotRules(m: ManifestId, audience: seq<AudienceTag>, w: (TimeTag, nat), slot: Slot, bonus: int): seq<RawRule> {
    if audience != [] then AudienceRules(m, audience, Some(w), slot, bonus)
    else [TimeOnlyRule(m, w, slot, bonus)]
  }

  /** The rules of a time tag's first n windows. */
  function WindowRules(m: ManifestId, audience: seq<AudienceTag>, t: TimeTag, n: nat, bonus: int): seq<RawRule>
    requires n <= |Windows(t)|
  {
    if n == 0 then []
    else WindowRules(m, audience, t, n - 1, bonus) + SlotRules(m, audience, (t, n - 1), Windows(t)[n - 1], bonus)
  }

  function TimeRules(m: ManifestId, audience: seq<AudienceTag>, times: seq<TimeTag>, bonus: int): seq<RawRule> {
    if times == [] then []
    else
      var last := times[|times| - 1];
      TimeRules(m, audience, times[..|times| - 1], bonus) + WindowRules(m, audience, last, |Windows(last)|, bonus)
  }

  function AudienceTags(tags: seq<Tag>): seq<AudienceTag> {
    if tags == [] then []
    else
      var before, last := AudienceTags(tags[..|tags| - 1]), tags[|tags| - 1];
      if last.Audience? then before + [last.audience] else before
  }

  function TimeTags(tags: seq<Tag>): seq<TimeTag> {
    if tags == [] then []
    else
      var before, last := TimeTags(tags[..|tags| - 1]), tags[|tags| - 1];
      if last.Time? then before + [last.time] else before
  }

  function TotalBonus(tags: seq<Tag>): nat {
    if tags == [] then 0
    else (if tags[0].Occasion? then OccasionBonus(tags[0].occasion) else 0) + TotalBonus(tags[1..])
  }

  /** The first frequency tag, or the default. */
  function FrequencyOf(tags: seq<Tag>): FrequencyTag {
    if tags == [] then Primary
    else if tags[0].Frequency? then tags[0].frequency
    else FrequencyOf(tags[1..])
  }

  /** The rules that target an audience or a time. */
  function TargetingRules(c: Creative): seq<RawRule> {
    var audience, times, bonus := AudienceTags(c.tags), TimeTags(c.tags), TotalBonus(c.tags);
    if times != [] then TimeRules(c.manifestId, audience, times, bonus)
    else AudienceRules(c.manifestId, audience, None, None, bonus)
  }

  function ReminderRule(c: Creative): Option<RawRule> {
    match FrequencyOf(c.tags)
    case Primary => None
    case Recurring => Some(Generated("autogen-" + c.manifestId + "-reminder", 7, 0.3, c.manifestId, BASIC_PRESENCE))
    case Ambient => Some(Generated("autogen-" + c.manifestId + "-reminder", 3, 0.2, c.manifestId, BASIC_PRESENCE))
  }

  /** All rules generated for one manifest. */
  function RulesFor(c: Creative): seq<RawRule> {
    var targeting := TargetingRules(c);
    targeting + (if ReminderRule(c).Some? && targeting != [] then [ReminderRule(c).value] else [])
  }

  function AllRules(creatives: seq<Creative>): seq<RawRule> {
    if creatives == [] then []
    else AllRules(creatives[..|creatives| - 1]) + RulesFor(creatives[|creatives| - 1])
  }

  predicate CatchAll(r: RawRule) {
    r.conditions.Some? && |r.conditions.value| == 0
  }

  function FallbackRule(creatives: seq<Creative>): RawRule {
    Generated("autogen-safety-fallback", -1, 1.0,
              if creatives != [] then creatives[0].manifestId else "manifest-attract", map[])
  }

  predicate HasCatchAll(rules: seq<RawRule>) {
    exists i :: 0 <= i < |rules| && CatchAll(rules[i])
  }

  /** The rules of the file: all generated ones, and the safety fallback if none is a catch-all. */
  function CompiledRules(creatives: seq<Creative>): seq<RawRule> {
    var all := AllRules(creatives);
    if HasCatchAll(all) then all else all + [FallbackRule(creatives)]
  }

  // ---------- the generator's loops ----------

  method MergePair(a: Conditions, b: Conditions, slot: Slot) returns (merged: Conditions)
    ensures merged == PairConditions(a, b, slot)
  {
    merged := MergeConditions(a, b);
    merged := merged[AttentionEngagedGte := Num(ATTENTION_GATE)];
    if slot.Some? {
      merged := merged[TimeHourGte := Num(slot.value.0 as real)];
      merged := merged[TimeHourLte := Num(slot.value.1 as real)];
    }
  }

  method PairPriority(w: Window, bonus: int) returns (priority: int)
    ensures priority == 10 + CROSS_DIMENSION_BONUS + TimeBoost(w) + bonus
  {
    priority := 10 + CROSS_DIMENSION_BONUS;
    if w.Some? {
      priority := priority + TIME_AUDIENCE_BOOST + bonus;
    } else {
      priority := priority + bonus;
    }
  }

  method MakePairRule(m: ManifestId, a: AudienceTag, b: AudienceTag, w: Window, slot: Slot, bonus: int)
    returns (rule: RawRule)
    ensures rule == PairRule(m, a, b, w, slot, bonus)
  {
    var merged := MergePair(AudienceConditions(a), AudienceConditions(b), slot);
    var priority := PairPriority(w, bonus);
    rule := Generated("autogen-" + m + WindowPart(w) + "-" + AudienceName(a) + "+" + AudienceName(b),
                      priority, 1.0, m, merged);
  }

  method MakePairIfCrossing(m: ManifestId, a: AudienceTag, b: AudienceTag, w: Window, slot: Slot, bonus: int)
    returns (rules: seq<RawRule>)
    ensures rules == PairIfCrossing(m, a, b, w, slot, bonus)
  {
    if DimensionOf(a) == DimensionOf(b) {
      return [];
    }
    var rule := MakePairRule(m, a, b, w, slot, bonus);
    rules := [rule];
  }

  method GeneratePairsWith(m: ManifestId, a: AudienceTag, later: seq<AudienceTag>, slot: Slot, w: Window, bonus: int)
    returns (rules: seq<RawRule>)
    ensures rules == PairsWith(m, a, later, w, slot, bonus)
  {
    rules := [];
    for j := 0 to |later|
      invariant rules == PairsWith(m, a, later[..j], w, slot, bonus)
    {
      assert later[..j + 1][..j] == later[..j];
      var now := MakePairIfCrossing(m, a, later[j], w, slot, bonus);
      rules := rules + now;
    }
    assert later[..|later|] == later;
  }

  method GeneratePairs(m: ManifestId, tags: seq<AudienceTag>, slot: Slot, w: Window, bonus: int)
    returns (rules: seq<RawRule>)
    ensures rules == Pairs(m, tags, |tags|, w, slot, bonus)
  {
    rules := [];
    for i := 0 to |tags|
      invariant rules == Pairs(m, tags, i, w, slot, bonus)
    {
      var row := GeneratePairsWith(m, tags[i], tags[i + 1..], slot, w, bonus);
      rules := rules + row;
    }
  }

  method GenerateCrossDimRules(m: ManifestId, audience: seq<AudienceTag>, slot: Slot, w: Window, bonus: int)
    returns (rules: seq<RawRule>)
    ensures rules == AllPairs(m, audience, w, slot, bonus)
  {
    rules := GeneratePairs(m, Dimensioned(audience), slot, w, bonus);
  }

  method MakeSingleRule(m: ManifestId, t: AudienceTag, w: Window, slot: Slot, bonus: int) returns (rule: RawRule)
    ensures rule == SingleRule(m, t, w, slot, bonus)
  {
    var cond := InjectAttentionGate(AudienceConditions(t), t);
    if slot.Some? {
      cond := cond[TimeHourGte := Num(slot.value.0 as real)];
      cond := cond[TimeHourLte := Num(slot.value.1 as real)];
    }
    rule := Generated("autogen-" + m + WindowPart(w) + "-" + AudienceName(t),
                      BasePriority(t) + TimeBoost(w) + bonus, 1.0, m, cond);
  }

  method GenerateSingles(m: ManifestId, audience: seq<AudienceTag>, w: Window, slot: Slot, bonus: int)
    returns (rules: seq<RawRule>)
    ensures rules == Singles(m, audience, w, slot, bonus)
  {
    rules := [];
    for i := 0 to |audience|
      invariant rules == Singles(m, audience[..i], w, slot, bonus)
    {
      assert audience[..i + 1][..i] == audience[..i];
      var rule := MakeSingleRule(m, audience[i], w, slot, bonus);
      rules := rules + [rule];
    }
    assert audience[..|audience|] == audience;
  }

  method GenerateSlotRules(m: ManifestId, audience: seq<AudienceTag>, w: (TimeTag, nat), slot: Slot, bonus: int)
    returns (rules: seq<RawRule>)
    ensures rules == SlotRules(m, audience, w, slot, bonus)
  {
    if audience == [] {
      return [TimeOnlyRule(m, w, slot, bonus)];
    }
    rules := GenerateSingles(m, audience, Some(w), slot, bonus);
    var pairs := GenerateCrossDimRules(m, audience, slot, Some(w), bonus);
    rules := rules + pairs;
  }

  method GenerateWindowRules(m: ManifestId, audience: seq<AudienceTag>, t: TimeTag, bonus: int)
    returns (rules: seq<RawRule>)
    ensures rules == WindowRules(m, audience, t, |Windows(t)|, bonus)
  {
    rules := [];
    var slots := Windows(t);
    for i := 0 to |slots|
      invariant rules == WindowRules(m, audience, t, i, bonus)
    {
      var now := GenerateSlotRules(m, audience, (t, i), slots[i], bonus);
      rules := rules + now;
    }
  }

  method GenerateTimeRules(m: ManifestId, audience: seq<AudienceTag>, times: seq<TimeTag>, bonus: int)
    returns (rules: seq<RawRule>)
    ensures rules == TimeRules(m, audience, times, bonus)
  {
    rules := [];
    for i := 0 to |times|
      invariant rules == TimeRules(m, audience, times[..i], bonus)
    {
      assert times[..i + 1][..i] == times[..i];
      var now := GenerateWindowRules(m, audience, times[i], bonus);
      rules := rules + now;
    }
    assert times[..|times|] == times;
  }

  method GenerateRulesForManifest(c: Creative) returns (rules: seq<RawRule>)
    ensures rules == RulesFor(c)
  {
    if c.tags == [] {
      return [];
    }
    var audience, times, bonus := AudienceTags(c.tags), TimeTags(c.tags), TotalBonus(c.tags);
    if times != [] {
      rules := GenerateTimeRules(c.manifestId, audience, times, bonus);
    } else {
      rules := GenerateSingles(c.manifestId, audience, None, None, bonus);
      var pairs := GenerateCrossDimRules(c.manifestId, audience, None, None, bonus);
      rules := rules + pairs;
    }
    var reminder := ReminderRule(c);
    if reminder.Some? && rules != [] {
      rules := rules + [reminder.value];
    }
  }

  method CollectRules(creatives: seq<Creative>) returns (all: seq<RawRule>)
    ensures all == AllRules(creatives)
  {
    all := [];
    for i := 0 to |creatives|
      invariant all == AllRules(creatives[..i])
    {
      assert creatives[..i + 1][..i] == creatives[..i];
      var rules := GenerateRulesForManifest(creatives[i]);
      all := all + rules;
    }
    assert creatives[..|creatives|] == creatives;
  }

  method FindCatchAll(rules: seq<RawRule>) returns (found: bool)
    ensures found <==> HasCatchAll(rules)
  {
    found := false;
    for i := 0 to |rules|
      invariant found <==> exists k :: 0 <= k < i && CatchAll(rules[k])
    {
      if CatchAll(rules[i]) {
        found := true;
      }
    }
  }

  method BuildRulesFile(creatives: seq<Creative>, minDwellMs: int, cooldownMs: int) returns (file: RulesFile)
    ensures file == RulesFile("1.0.0", Some(minDwellMs), Some(cooldownMs), CompiledRules(creatives))
  {
    var all := CollectRules(creatives);
    var hasFallback := FindCatchAll(all);
    if !hasFallback {
      all := all + [FallbackRule(creatives)];
    }
    file := RulesFile("1.0.0", Some(minDwellMs), Some(cooldownMs), all);
  }
}
