/**
 The sliding observation window of the audience-state service: a list pruned lazily, and
 the smoothed presence, demographics and attention computed from it.
 */
module Window {
  import opened Wrappers
  import opened Recency
  import opened Rounding
  import Policy

  type Bin = Policy.Bin

  datatype Group = AgeGroup | GenderGroup | AttireGroup

  /** The demographics of one observation; a group, or a bin of it, may be missing. */
  datatype ObservedDemographics = ObservedDemographics(
    age: Option<map<Bin, real>>,
    gender: Option<map<Bin, real>>,
    attire: Option<map<Bin, real>>,
    dwellEstimateMs: Option<int>)

  datatype Observation = Observation(
    messageId: string,
    present: int,
    confidence: real,
    degraded: Option<bool>,
    demographics: Option<ObservedDemographics>,
    attention: Option<Policy.Attention>)

  datatype Stored = Stored(data: Observation, receivedAt: real)

  function ReceivedAt(o: Stored): real {
    o.receivedAt
  }

  datatype Config = Config(windowMs: int, minStability: int, confidenceThreshold: real)

  predicate ValidConfig(c: Config) {
    c.windowMs >= 100 && c.minStability >= 1 && 0.0 <= c.confidenceThreshold <= 1.0
  }

  function Cutoff(c: Config, now: real): real {
    now - c.windowMs as real / 1000.0
  }

  /** The observations of a log that are in the window at a given time. */
  function InWindow(log: seq<Stored>, c: Config, now: real): seq<Stored> {
    Recent(log, ReceivedAt, Cutoff(c, now))
  }

  // ---------- presence and stability ----------

  function Counts(obs: seq<Stored>): seq<real> {
    seq(|obs|, i requires 0 <= i < |obs| => obs[i].data.present as real)
  }

  function Confidences(obs: seq<Stored>): seq<real> {
    seq(|obs|, i requires 0 <= i < |obs| => obs[i].data.confidence)
  }

  predicate AnyDegraded(obs: seq<Stored>) {
    exists o :: o in obs && o.data.degraded == Some(true)
  }

  datatype State = State(count: int, confidence: real, stability: Policy.Stability)

  function StateOf(obs: seq<Stored>, c: Config): Option<State> {
    if obs == [] then None
    else
      var confidence := RoundTo4(Mean(Confidences(obs)));
      var stable := |obs| >= c.minStability;
      Some(State(RoundHalfEven(Mean(Counts(obs))), confidence,
                 Policy.Stability(stable,
                                  !stable || confidence < c.confidenceThreshold || AnyDegraded(obs),
                                  |obs|)))
  }

  // ---------- demographics ----------

  const AGE_BINS: seq<Bin> := [Policy.Child, Policy.YoungAdult, Policy.Adult, Policy.Senior]
  const GENDER_BINS: seq<Bin> := [Policy.Male, Policy.Female]
  const ATTIRE_BINS: seq<Bin> := [
    Policy.Formal, Policy.BusinessCasual, Policy.Casual, Policy.Athletic, Policy.OutdoorTechnical,
    Policy.WorkwearUniform, Policy.Streetwear, Policy.LuxuryPremium, Policy.LoungeComfort,
    Policy.SmartOccasion]

  function BinsOf(g: Group): seq<Bin> {
    match g
    case AgeGroup => AGE_BINS
    case GenderGroup => GENDER_BINS
    case AttireGroup => ATTIRE_BINS
  }

  /** One observation's share for a bin, if its group and bin are there. */
  function ShareOf(o: Stored, g: Group, b: Bin): Option<real> {
    if o.data.demographics == None then None
    else
      var d := o.data.demographics.value;
      var group := match g
        case AgeGroup => d.age
        case GenderGroup => d.gender
        case AttireGroup => d.attire;
      if group.Some? && b in group.value then Some(group.value[b]) else None
  }

  predicate AllHave(obs: seq<Stored>, g: Group, b: Bin) {
    forall i :: 0 <= i < |obs| ==> ShareOf(obs[i], g, b).Some?
  }

  function Shares(obs: seq<Stored>, g: Group, b: Bin): seq<real>
    requires AllHave(obs, g, b)
  {
    seq(|obs|, i requires 0 <= i < |obs| => ShareOf(obs[i], g, b).value)
  }

  /** The smoothed shares of some bins of a group; None if any observation lacks one. */
  function GroupMeans(obs: seq<Stored>, g: Group, bins: seq<Bin>): Option<map<Bin, real>>
    requires obs != []
  {
    if bins == [] then Some(map[])
    else
      var before, last := GroupMeans(obs, g, bins[..|bins| - 1]), bins[|bins| - 1];
      if before.Some? && AllHave(obs, g, last)
      then Some(before.value[last := RoundTo4(Mean(Shares(obs, g, last)))])
      else None
  }

  function OrEmpty(m: Option<map<Bin, real>>): map<Bin, real> {
    if m.Some? then m.value else map[]
  }

  const SUPPRESSED := Policy.Demographics(Some(true), map[], None)

  predicate HasDemographics(o: Stored) {
    o.data.demographics.Some?
  }

  function DemographicsOf(obs: seq<Stored>, c: Config): Option<Policy.Demographics> {
    if forall o :: o in obs ==> !HasDemographics(o) then None
    else if exists o :: o in obs && !HasDemographics(o) then Some(SUPPRESSED)
    else if Mean(Confidences(obs)) < c.confidenceThreshold then Some(SUPPRESSED)
    else if GroupMeans(obs, AgeGroup, AGE_BINS) == None then Some(SUPPRESSED)
    else
      assert obs[|obs| - 1] in obs;
      Some(Policy.Demographics(
             Some(false),
             GroupMeans(obs, AgeGroup, AGE_BINS).value
             + OrEmpty(GroupMeans(obs, GenderGroup, GENDER_BINS))
             + OrEmpty(GroupMeans(obs, AttireGroup, ATTIRE_BINS)),
             obs[|obs| - 1].data.demographics.value.dwellEstimateMs))
  }

  /** The bins of one group, averaged one after the other until one is missing. */
  method AverageGroup(obs: seq<Stored>, g: Group) returns (means: Option<map<Bin, real>>)
    requires obs != []
    ensures means == GroupMeans(obs, g, BinsOf(g))
  {
    var bins := BinsOf(g);
    var shares: map<Bin, real> := map[];
    for n := 0 to |bins|
      invariant GroupMeans(obs, g, bins[..n]) == Some(shares)
    {
      assert bins[..n + 1][..n] == bins[..n];
      if !AllHave(obs, g, bins[n]) {
        MissingStaysMissing(obs, g, bins, n + 1);
        return None;
      }
      shares := shares[bins[n] := RoundTo4(Mean(Shares(obs, g, bins[n])))];
    }
    assert bins[..|bins|] == bins;
    means := Some(shares);
  }

  lemma {:induction false} MissingStaysMissing(obs: seq<Stored>, g: Group, bins: seq<Bin>, n: nat)
    requires obs != [] && n <= |bins| && GroupMeans(obs, g, bins[..n]) == None
    ensures GroupMeans(obs, g, bins) == None
    decreases |bins|
  {
    if n < |bins| {
      assert bins[..|bins| - 1][..n] == bins[..n];
      MissingStaysMissing(obs, g, bins[..|bins| - 1], n);
    } else {
      assert bins[..n] == bins;
    }
  }

  method SmoothDemographics(obs: seq<Stored>, c: Config) returns (r: Option<Policy.Demographics>)
    ensures r == DemographicsOf(obs, c)
  {
    if forall o :: o in obs ==> !HasDemographics(o) {
      return None;
    }
    if exists o :: o in obs && !HasDemographics(o) {
      return Some(SUPPRESSED);
    }
    if Mean(Confidences(obs)) < c.confidenceThreshold {
      return Some(SUPPRESSED);
    }
    var ages := AverageGroup(obs, AgeGroup);
    if ages == None {
      return Some(SUPPRESSED);
    }
    var bins := ages.value;
    var genders := AverageGroup(obs, GenderGroup);
    bins := bins + OrEmpty(genders);
    var attire := AverageGroup(obs, AttireGroup);
    bins := bins + OrEmpty(attire);
    assert obs[|obs| - 1] in obs;
    r := Some(Policy.Demographics(Some(false), bins, obs[|obs| - 1].data.demographics.value.dwellEstimateMs));
  }

  // ---------- attention ----------

  function EngagedValues(obs: seq<Stored>): seq<real> {
    if obs == [] then []
    else
      var before, a := EngagedValues(obs[..|obs| - 1]), obs[|obs| - 1].data.attention;
      if a.Some? && a.value.engaged.Some? then before + [a.value.engaged.value] else before
  }

  function AmbientValues(obs: seq<Stored>): seq<real> {
    if obs == [] then []
    else
      var before, a := AmbientValues(obs[..|obs| - 1]), obs[|obs| - 1].data.attention;
      if a.Some? && a.value.ambient.Some? then before + [a.value.ambient.value] else before
  }

  function RoundedMean(xs: seq<real>): Option<real> {
    if xs == [] then None else Some(RoundTo4(Mean(xs)))
  }

  function AttentionOf(obs: seq<Stored>): Option<Policy.Attention> {
    var engaged, ambient := RoundedMean(EngagedValues(obs)), RoundedMean(AmbientValues(obs));
    if engaged == None && ambient == None then None else Some(Policy.Attention(engaged, ambient))
  }

  // ---------- age of the newest observation ----------

  function NewestAgeMs(obs: seq<Stored>, now: real): Option<int> {
    if obs == [] then None else Some(MillisBetween(obs[|obs| - 1].receivedAt, now))
  }

  // ---------- the class ----------

  class ObservationWindow {
    const config: Config
    var observations: seq<Stored>
    var totalAdded: nat
    /** Everything ever added, and the latest cutoff and clock reading so far. */
    ghost var log: seq<Stored>
    ghost var cutoff: real
    ghost var clock: real

    ghost predicate Valid()
      reads this
    {
      && ValidConfig(config)
      && observations == Recent(log, ReceivedAt, cutoff)
      && cutoff <= Cutoff(config, clock)
      && totalAdded == |log|
      && forall o :: o in log ==> o.receivedAt <= clock
    }

    constructor (config: Config, now: real)
      requires ValidConfig(config)
      ensures Valid() && this.config == config && log == [] && clock == now
    {
      this.config := config;
      observations, totalAdded := [], 0;
      log, clock := [], now;
      cutoff := Cutoff(config, now);
    }

    /** The constructor's argument checks: a bad configuration is refused. */
    static method Create(config: Config, now: real) returns (w: Option<ObservationWindow>)
      ensures w.Some? <==> ValidConfig(config)
      ensures w.Some? ==> fresh(w.value) && w.value.Valid() && w.value.config == config && w.value.log == []
    {
      if config.windowMs < 100 || config.minStability < 1 || !(0.0 <= config.confidenceThreshold <= 1.0) {
        return None;
      }
      var made := new ObservationWindow(config, now);
      w := Some(made);
    }

    method Prune(now: real)
      requires Valid() && now >= clock
      modifies this`observations, this`cutoff, this`clock
      ensures Valid() && clock == now
      ensures observations == InWindow(log, config, now)
    {
      observations := Recent(observations, ReceivedAt, Cutoff(config, now));
      RecentAfterRecent(log, ReceivedAt, cutoff, Cutoff(config, now));
      cutoff, clock := Cutoff(config, now), now;
    }

    /** Adding reads the clock twice: to prune, and to stamp the observation. */
    method Add(data: Observation, now: real, stamp: real)
      requires Valid() && clock <= now <= stamp
      modifies this
      ensures Valid() && clock == stamp
      ensures log == old(log) + [Stored(data, stamp)]
    {
      Prune(now);
      var entry := Stored(data, stamp);
      observations := observations + [entry];
      totalAdded := totalAdded + 1;
      RecentOfAppend(log, entry, ReceivedAt, cutoff);
      log, clock := log + [entry], stamp;
    }

    method ComputeState(now: real) returns (r: Option<State>)
      requires Valid() && now >= clock
      modifies this`observations, this`cutoff, this`clock
      ensures Valid() && clock == now
      ensures r == StateOf(InWindow(log, config, now), config)
    {
      Prune(now);
      if observations == [] {
        return None;
      }
      var n := |observations|;
      var count := RoundHalfEven(Mean(Counts(observations)));
      var confidence := RoundTo4(Mean(Confidences(observations)));
      var stable := n >= config.minStability;
      var freeze := !stable || confidence < config.confidenceThreshold || AnyDegraded(observations);
      r := Some(State(count, confidence, Policy.Stability(stable, freeze, n)));
    }

    method ComputeDemographics(now: real) returns (r: Option<Policy.Demographics>)
      requires Valid() && now >= clock
      modifies this`observations, this`cutoff, this`clock
      ensures Valid() && clock == now
      ensures r == DemographicsOf(InWindow(log, config, now), config)
    {
      Prune(now);
      r := SmoothDemographics(observations, config);
    }

    method ComputeAttention(now: real) returns (r: Option<Policy.Attention>)
      requires Valid() && now >= clock
      modifies this`observations, this`cutoff, this`clock
      ensures Valid() && clock == now
      ensures r == AttentionOf(InWindow(log, config, now))
    {
      Prune(now);
      var engaged, ambient := RoundedMean(EngagedValues(observations)), RoundedMean(AmbientValues(observations));
      r := if engaged == None && ambient == None then None else Some(Policy.Attention(engaged, ambient));
    }

    /** Reads the clock twice: to prune, and to take the difference. */
    method NewestObservationAgeMs(now: real, later: real) returns (age: Option<int>)
      requires Valid() && clock <= now <= later
      modifies this`observations, this`cutoff, this`clock
      ensures Valid() && clock == later
      ensures age == NewestAgeMs(InWindow(log, config, now), later)
    {
      Prune(now);
      clock := later;
      if observations == [] {
        return None;
      }
      age := NewestAgeMs(observations, later);
    }

    method AnyPipelineDegraded(now: real) returns (degraded: bool)
      requires Valid() && now >= clock
      modifies this`observations, this`cutoff, this`clock
      ensures Valid() && clock == now
      ensures degraded == AnyDegraded(InWindow(log, config, now))
    {
      Prune(now);
      degraded := AnyDegraded(observations);
    }
  }

  // ---------- whole runs of the window ----------

  /** One use of the window: an observation is added, or something is asked at a time. */
  datatype Use = AddAt(data: Observation, now: real, stamp: real) | AskAt(now: real)

  /** The list kept by the window after some uses: every use prunes first. */
  function Kept(uses: seq<Use>, c: Config): seq<Stored> {
    if uses == [] then []
    else
      var pruned := InWindow(Kept(uses[..|uses| - 1], c), c, uses[|uses| - 1].now);
      match uses[|uses| - 1]
      case AddAt(data, _, stamp) => pruned + [Stored(data, stamp)]
      case AskAt(_) => pruned
  }

  /** Everything the uses have added. */
  function Added(uses: seq<Use>): seq<Stored> {
    if uses == [] then []
    else
      match uses[|uses| - 1]
      case AddAt(data, _, stamp) => Added(uses[..|uses| - 1]) + [Stored(data, stamp)]
      case AskAt(_) => Added(uses[..|uses| - 1])
  }

  function EndOf(u: Use): real {
    if u.AddAt? then u.stamp else u.now
  }

  /** The clock never goes back, within a use or between uses. */
  ghost predicate ClockNondecreasing(uses: seq<Use>) {
    && (forall i :: 0 <= i < |uses| ==> uses[i].now <= EndOf(uses[i]))
    && forall i, j :: 0 <= i < j < |uses| ==> EndOf(uses[i]) <= uses[j].now
  }

  /** Lazy pruning cannot be observed: at any time from the last use on, what the kept list has
      in the window is what the full, never pruned log has there. */
  lemma {:induction false} LazyPruningUnobservable(uses: seq<Use>, c: Config, now: real)
    requires ValidConfig(c) && ClockNondecreasing(uses)
    requires uses != [] ==> EndOf(uses[|uses| - 1]) <= now
    ensures InWindow(Kept(uses, c), c, now) == InWindow(Added(uses), c, now)
  {
    if uses != [] {
      var before, last := uses[..|uses| - 1], uses[|uses| - 1];
      LazyPruningUnobservable(before, c, now);
      RecentAfterRecent(Kept(before, c), ReceivedAt, Cutoff(c, last.now), Cutoff(c, now));
      if last.AddAt? {
        var entry := Stored(last.data, last.stamp);
        RecentOfAppend(InWindow(Kept(before, c), c, last.now), entry, ReceivedAt, Cutoff(c, now));
        RecentOfAppend(Added(before), entry, ReceivedAt, Cutoff(c, now));
      }
    }
  }

  // ---------- bounds of the smoothed values ----------

  /** What the observation schema guarantees of the numbers in a message. */
  ghost predicate InRange(o: Observation) {
    && o.present >= 0 && 0.0 <= o.confidence <= 1.0
    && (forall g, b, at :: ShareOf(Stored(o, at), g, b).Some? ==> 0.0 <= ShareOf(Stored(o, at), g, b).value <= 1.0)
    && (o.demographics.Some? && o.demographics.value.dwellEstimateMs.Some?
        ==> o.demographics.value.dwellEstimateMs.value >= 0)
    && (o.attention.Some? && o.attention.value.engaged.Some? ==> 0.0 <= o.attention.value.engaged.value <= 1.0)
    && (o.attention.Some? && o.attention.value.ambient.Some? ==> 0.0 <= o.attention.value.ambient.value <= 1.0)
  }

  ghost predicate AllInRange(obs: seq<Stored>) {
    forall o :: o in obs ==> InRange(o.data)
  }

  /** The smoothed count lies between the smallest and the largest count in the window. */
  lemma SmoothedCountBetween(obs: seq<Stored>, c: Config, lo: int, hi: int)
    requires obs != [] && forall o :: o in obs ==> lo <= o.data.present <= hi
    ensures lo <= StateOf(obs, c).value.count <= hi
  {
    forall i | 0 <= i < |obs|
      ensures lo as real <= Counts(obs)[i] <= hi as real
    {
      assert obs[i] in obs;
    }
    MeanBounds(Counts(obs), lo as real, hi as real);
    RoundBetween(Mean(Counts(obs)), lo, hi);
  }

  /** The smoothed confidence is a share, within 0.00005 of the true mean. */
  lemma SmoothedConfidenceNear(obs: seq<Stored>, c: Config)
    requires obs != [] && AllInRange(obs)
    ensures 0.0 <= StateOf(obs, c).value.confidence <= 1.0
    ensures -0.00005 <= StateOf(obs, c).value.confidence - Mean(Confidences(obs)) <= 0.00005
  {
    forall i | 0 <= i < |obs|
      ensures 0.0 <= Confidences(obs)[i] <= 1.0
    {
      assert obs[i] in obs;
    }
    MeanBounds(Confidences(obs), 0.0, 1.0);
    RoundTo4IsNear(Mean(Confidences(obs)));
  }

  lemma SharesInRange(obs: seq<Stored>, g: Group, b: Bin)
    requires obs != [] && AllInRange(obs) && AllHave(obs, g, b)
    ensures 0.0 <= RoundTo4(Mean(Shares(obs, g, b))) <= 1.0
  {
    forall i | 0 <= i < |obs|
      ensures 0.0 <= Shares(obs, g, b)[i] <= 1.0
    {
      assert obs[i] in obs && obs[i] == Stored(obs[i].data, obs[i].receivedAt);
    }
    MeanBounds(Shares(obs, g, b), 0.0, 1.0);
    RoundTo4IsNear(Mean(Shares(obs, g, b)));
  }

  /** Each smoothed bin is the rounded mean over all observations, all of which have the bin. */
  lemma {:induction false} GroupMeansAre(obs: seq<Stored>, g: Group, bins: seq<Bin>, b: Bin)
    requires obs != [] && GroupMeans(obs, g, bins).Some?
    ensures b in GroupMeans(obs, g, bins).value <==> b in bins
    ensures b in bins ==>
              && AllHave(obs, g, b)
              && GroupMeans(obs, g, bins).value[b] == RoundTo4(Mean(Shares(obs, g, b)))
  {
    if bins != [] {
      GroupMeansAre(obs, g, bins[..|bins| - 1], b);
    }
  }

  function GroupOf(b: Bin): Group {
    match b
    case Child | YoungAdult | Adult | Senior => AgeGroup
    case Male | Female => GenderGroup
    case _ => AttireGroup
  }

  ghost predicate Shown(obs: seq<Stored>, c: Config) {
    DemographicsOf(obs, c).Some? && DemographicsOf(obs, c).value.suppressed == Some(false)
  }

  /** Demographics are shown only if every observation in the window carries them and the mean
      confidence reaches the threshold. */
  lemma ShownDemographicsAreComplete(obs: seq<Stored>, c: Config)
    requires Shown(obs, c)
    ensures obs != [] && (forall o :: o in obs ==> HasDemographics(o))
    ensures Mean(Confidences(obs)) >= c.confidenceThreshold
    ensures GroupMeans(obs, AgeGroup, AGE_BINS).Some?
    ensures DemographicsOf(obs, c).value.bins
         == GroupMeans(obs, AgeGroup, AGE_BINS).value
            + OrEmpty(GroupMeans(obs, GenderGroup, GENDER_BINS))
            + OrEmpty(GroupMeans(obs, AttireGroup, ATTIRE_BINS))
  {
  }

  lemma GroupOfBin(b: Bin, g: Group)
    ensures b in BinsOf(g) <==> g == GroupOf(b)
  {
  }

  lemma ShownBin(obs: seq<Stored>, c: Config, b: Bin)
    requires Shown(obs, c) && b in DemographicsOf(obs, c).value.bins && obs != []
    ensures GroupMeans(obs, GroupOf(b), BinsOf(GroupOf(b))).Some?
    ensures b in GroupMeans(obs, GroupOf(b), BinsOf(GroupOf(b))).value
    ensures DemographicsOf(obs, c).value.bins[b] == GroupMeans(obs, GroupOf(b), BinsOf(GroupOf(b))).value[b]
  {
    ShownDemographicsAreComplete(obs, c);
    ShownBinOf(obs, AgeGroup, b);
    ShownBinOf(obs, GenderGroup, b);
    ShownBinOf(obs, AttireGroup, b);
  }

  lemma ShownBinOf(obs: seq<Stored>, g: Group, b: Bin)
    requires obs != []
    ensures b in OrEmpty(GroupMeans(obs, g, BinsOf(g)))
       <==> g == GroupOf(b) && GroupMeans(obs, g, BinsOf(g)).Some?
  {
    GroupOfBin(b, g);
    if GroupMeans(obs, g, BinsOf(g)).Some? {
      GroupMeansAre(obs, g, BinsOf(g), b);
    }
  }

  /** Each bin shown is within 0.00005 of its true mean over the whole window. */
  lemma ShownDemographicsAreMeans(obs: seq<Stored>, c: Config, b: Bin)
    requires Shown(obs, c) && b in DemographicsOf(obs, c).value.bins
    ensures obs != [] && AllHave(obs, GroupOf(b), b)
    ensures var shown, mean := DemographicsOf(obs, c).value.bins[b], Mean(Shares(obs, GroupOf(b), b));
            -0.00005 <= shown - mean <= 0.00005 && (AllInRange(obs) ==> 0.0 <= shown <= 1.0)
  {
    ShownDemographicsAreComplete(obs, c);
    ShownBin(obs, c, b);
    GroupMeansAre(obs, GroupOf(b), BinsOf(GroupOf(b)), b);
    RoundTo4IsNear(Mean(Shares(obs, GroupOf(b), b)));
    if AllInRange(obs) {
      SharesInRange(obs, GroupOf(b), b);
    }
  }
}
