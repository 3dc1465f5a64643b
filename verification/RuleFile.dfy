/**
 The rules file between the dashboard, which writes it, and the decision service, which
 decodes it: condition dicts, the loader, and the meaning of one condition.
 */
module RuleFile {
  import opened Wrappers
  import opened Policy

  /** The keys of a condition dict; the loader ignores those it does not know. */
  datatype Key =
    | PresenceCountGte | PresenceCountLte | PresenceCountEq | PresenceConfidenceGte
    | BinGte(bin: Bin)
    | DemographicsSuppressedEq
    | AttentionEngagedGte
    | TimeHourGte | TimeHourLte
    | OtherKey(name: string)

  datatype Value = Num(n: real) | Flag(b: bool)

  type Conditions = map<Key, Value>

  /** A rule as written to the file; the loader supplies what is left out. */
  datatype RawRule = RawRule(
    ruleId: string,
    priority: Option<int>,
    weight: Option<real>,
    manifestId: ManifestId,
    conditions: Option<Conditions>)

  datatype RulesFile = RulesFile(
    schemaVersion: string,
    minDwellMs: Option<int>,
    cooldownMs: Option<int>,
    rules: seq<RawRule>)

  datatype Loaded =
    | Engine(rules: seq<Rule>, minDwellMs: int, cooldownMs: int)
    | Malformed(reason: string)

  function NumberAt(c: Conditions, k: Key): Option<real> {
    if k in c && c[k].Num? then Some(c[k].n) else None
  }

  function FlagAt(c: Conditions, k: Key): Option<bool> {
    if k in c && c[k].Flag? then Some(c[k].b) else None
  }

  function ConditionsOf(r: RawRule): Conditions {
    if r.conditions.Some? then r.conditions.value else map[]
  }

  function Decode(r: RawRule): Rule {
    var c := ConditionsOf(r);
    Rule(r.ruleId,
         if r.priority.Some? then r.priority.value else 0,
         r.manifestId,
         if r.weight.Some? then r.weight.value else 1.0,
         NumberAt(c, PresenceCountGte),
         NumberAt(c, PresenceCountLte),
         NumberAt(c, PresenceCountEq),
         NumberAt(c, PresenceConfidenceGte),
         map b: Bin | NumberAt(c, BinGte(b)).Some? :: c[BinGte(b)].n,
         FlagAt(c, DemographicsSuppressedEq),
         NumberAt(c, AttentionEngagedGte),
         NumberAt(c, TimeHourGte),
         NumberAt(c, TimeHourLte))
  }

  function DecodeAll(raw: seq<RawRule>): (rules: seq<Rule>)
    ensures |rules| == |raw|
  {
    seq(|raw|, i requires 0 <= i < |raw| => Decode(raw[i]))
  }

  /** Loading a rules file, whose JSON has been parsed. */
  method LoadPolicy(file: RulesFile) returns (result: Loaded)
    ensures result.Malformed? <==> file.schemaVersion != "1.0.0" || file.rules == []
    ensures result.Engine? ==>
              && result.rules == DecodeAll(file.rules)
              && result.minDwellMs == (if file.minDwellMs.Some? then file.minDwellMs.value else 10000)
              && result.cooldownMs == (if file.cooldownMs.Some? then file.cooldownMs.value else 5000)
  {
    if file.schemaVersion != "1.0.0" {
      return Malformed("unsupported schema_version");
    }
    if file.rules == [] {
      return Malformed("no rules");
    }
    var rules: seq<Rule> := [];
    for n := 0 to |file.rules|
      invariant |rules| == n
      invariant forall i :: 0 <= i < n ==> rules[i] == Decode(file.rules[i])
    {
      rules := rules + [Decode(file.rules[n])];
    }
    result := Engine(rules,
                     if file.minDwellMs.Some? then file.minDwellMs.value else 10000,
                     if file.cooldownMs.Some? then file.cooldownMs.value else 5000);
  }

  // ---------- meaning ----------

  /** What one entry of a condition dict demands of a signal at an hour of the day. */
  predicate Holds(k: Key, v: Value, s: Signal, hour: int) {
    match k
    case PresenceCountGte => v.Num? ==> s.count as real >= v.n
    case PresenceCountLte => v.Num? ==> s.count as real <= v.n
    case PresenceCountEq => v.Num? ==> s.count as real == v.n
    case PresenceConfidenceGte => v.Num? ==> s.confidence >= v.n
    case BinGte(b) => v.Num? ==> !Suppressed(s) && BinValue(s, b) >= v.n
    case DemographicsSuppressedEq => v.Flag? ==> Suppressed(s) == v.b
    case AttentionEngagedGte =>
      v.Num? && s.attention.Some? && s.attention.value.engaged.Some?
      ==> s.attention.value.engaged.value >= v.n
    case TimeHourGte => v.Num? ==> hour as real >= v.n
    case TimeHourLte => v.Num? ==> hour as real <= v.n
    case OtherKey(_) => true
  }

  ghost predicate AllHold(c: Conditions, s: Signal, hour: int) {
    forall k :: k in c ==> Holds(k, c[k], s, hour)
  }

  /** A decoded rule matches exactly when every entry of its condition dict holds. */
  lemma DecodedMeaning(r: RawRule, s: Signal, hour: int)
    ensures Matches(Decode(r), s, hour) <==> AllHold(ConditionsOf(r), s, hour)
  {
    var c, d := ConditionsOf(r), Decode(r);
    if Matches(d, s, hour) {
      forall k | k in c
        ensures Holds(k, c[k], s, hour)
      {
        assert k.BinGte? && c[k].Num? ==> k.bin in d.binGte;
      }
    }
    if AllHold(c, s, hour) {
      assert forall k :: k in c ==> Holds(k, c[k], s, hour);
      EachHeldIsPassed(c, PresenceCountGte, s, hour);
      EachHeldIsPassed(c, PresenceCountLte, s, hour);
      EachHeldIsPassed(c, PresenceCountEq, s, hour);
      EachHeldIsPassed(c, DemographicsSuppressedEq, s, hour);
      forall b | b in d.binGte
        ensures !Suppressed(s) && BinValue(s, b) >= d.binGte[b]
      {
        EachHeldIsPassed(c, BinGte(b), s, hour);
      }
      if d.binGte != map[] {
        var b :| b in d.binGte;
      }
    }
  }

  lemma EachHeldIsPassed(c: Conditions, k: Key, s: Signal, hour: int)
    requires AllHold(c, s, hour)
    ensures k in c ==> Holds(k, c[k], s, hour)
  {
  }

  /** The keys the loader reads, with values of the type it expects. */
  ghost predicate Readable(c: Conditions) {
    forall k :: k in c ==> if k.DemographicsSuppressedEq? then c[k].Flag? else !k.OtherKey? && c[k].Num?
  }

  function Rewrapped(v: Option<real>): Option<Value> {
    if v.Some? then Some(Num(v.value)) else None
  }

  /** The dict entry that a decoded rule still carries under a key. */
  function Recovered(r: Rule, k: Key): Option<Value> {
    match k
    case PresenceCountGte => Rewrapped(r.countGte)
    case PresenceCountLte => Rewrapped(r.countLte)
    case PresenceCountEq => Rewrapped(r.countEq)
    case PresenceConfidenceGte => Rewrapped(r.confidenceGte)
    case BinGte(b) => if b in r.binGte then Some(Num(r.binGte[b])) else None
    case DemographicsSuppressedEq => if r.suppressedEq.Some? then Some(Flag(r.suppressedEq.value)) else None
    case AttentionEngagedGte => Rewrapped(r.engagedGte)
    case TimeHourGte => Rewrapped(r.hourGte)
    case TimeHourLte => Rewrapped(r.hourLte)
    case OtherKey(_) => None
  }

  /** Nothing is lost in decoding a dict of known keys: every entry can be read back. */
  lemma DecodeKeepsEverything(r: RawRule, k: Key)
    requires Readable(ConditionsOf(r))
    ensures Recovered(Decode(r), k)
         == if k in ConditionsOf(r) then Some(ConditionsOf(r)[k]) else None
  {
    match k
    case BinGte(b) => assert b in Decode(r).binGte <==> k in ConditionsOf(r);
    case _ =>
  }

  /** What is decoded besides the conditions: id, manifest, and priority 0 and weight 1 where the
      file gives none. */
  lemma DecodedHeader(r: RawRule)
    ensures Decode(r).ruleId == r.ruleId && Decode(r).manifestId == r.manifestId
    ensures r.priority == Some(Decode(r).priority) || (r.priority == None && Decode(r).priority == 0)
    ensures r.weight == Some(Decode(r).weight) || (r.weight == None && Decode(r).weight == 1.0)
  {
  }

  /** A rule on suppression alone matches exactly if demographics are withheld, or shown. */
  lemma SuppressionMeaning(r: RawRule, withheld: bool, s: Signal, hour: int)
    requires ConditionsOf(r) == map[DemographicsSuppressedEq := Flag(withheld)]
    ensures Matches(Decode(r), s, hour)
       <==> (withheld <==> !(s.demographics.Some? && s.demographics.value.suppressed == Some(false)))
  {
    DecodedMeaning(r, s, hour);
    assert DemographicsSuppressedEq in ConditionsOf(r);
  }
}
