/**
 What the smoothed values are, told from sums over the observations in the window alone: the
 count is the nearest whole number to the mean, the other values are within rounding of theirs,
 and each decision the window takes has its exact condition.
 */
module Smoothing {
  import opened Wrappers
  import opened Rounding
  import opened Window
  import Policy
  import Recency
  import S = Signals

  // ---------- the window, by the clock ----------

  /** In the window is what was received no longer ago than its length. */
  lemma WindowByTheClock(log: seq<Stored>, c: Config, now: real, o: Stored)
    ensures o in InWindow(log, c, now) <==> o in log && (now - o.receivedAt) * 1000.0 <= c.windowMs as real
  {
    Recency.RecentMembers(log, ReceivedAt, Cutoff(c, now));
  }

  ghost predicate InOrder(log: seq<Stored>) {
    forall i, j :: 0 <= i < j < |log| ==> log[i].receivedAt <= log[j].receivedAt
  }

  /** Of a log in the order of arrival, the window is the part from the first recent entry on. */
  lemma {:induction false} WindowIsSuffix(log: seq<Stored>, c: Config, now: real) returns (k: nat)
    requires InOrder(log)
    ensures k <= |log| && InWindow(log, c, now) == log[k..]
    ensures forall i :: 0 <= i < |log| ==> (i >= k <==> (now - log[i].receivedAt) * 1000.0 <= c.windowMs as real)
  {
    if log == [] {
      k := 0;
    } else {
      var n := |log| - 1;
      k := WindowIsSuffix(log[..n], c, now);
      if log[n].receivedAt >= Cutoff(c, now) {
        assert log[k..] == log[..n][k..] + [log[n]];
      } else {
        k := |log|;
      }
    }
  }

  // ---------- presence ----------

  /** All persons counted in the observations. */
  function Persons(obs: seq<Stored>): int {
    if obs == [] then 0 else obs[0].data.present + Persons(obs[1..])
  }

  function TotalConfidence(obs: seq<Stored>): real {
    if obs == [] then 0.0 else obs[0].data.confidence + TotalConfidence(obs[1..])
  }

  lemma {:induction false} TotalAppend(xs: seq<real>, x: real)
    ensures Total(xs + [x]) == Total(xs) + x
  {
    if xs == [] {
      assert (xs + [x])[1..] == [];
    } else {
      assert (xs + [x])[1..] == xs[1..] + [x];
      TotalAppend(xs[1..], x);
    }
  }

  lemma {:induction false} PersonsTotal(obs: seq<Stored>)
    ensures Total(Counts(obs)) == Persons(obs) as real
  {
    if obs != [] {
      PersonsTotal(obs[1..]);
      assert Counts(obs)[1..] == Counts(obs[1..]);
    }
  }

  lemma {:induction false} ConfidenceTotal(obs: seq<Stored>)
    ensures Total(Confidences(obs)) == TotalConfidence(obs)
  {
    if obs != [] {
      ConfidenceTotal(obs[1..]);
      assert Confidences(obs)[1..] == Confidences(obs[1..]);
    }
  }

  predicate Even(n: int) {
    n % 2 == 0
  }

  /** r is the whole number nearest to total / n, and the even one of two that are equally near. */
  predicate Nearest(r: int, n: int, total: int) {
    && -n <= 2 * (n * r - total) <= n
    && (2 * (n * r - total) == n || 2 * (n * r - total) == -n ==> Even(r))
  }

  /** The smoothed count is the whole number nearest to the mean of the counts. */
  lemma SmoothedCountIsNearest(obs: seq<Stored>, c: Config)
    requires obs != []
    ensures Nearest(StateOf(obs, c).value.count, |obs|, Persons(obs))
  {
    PersonsTotal(obs);
    RoundedMeanIsNearest(Counts(obs), Persons(obs));
  }

  lemma RoundedMeanIsNearest(xs: seq<real>, total: int)
    requires xs != [] && Total(xs) == total as real
    ensures Nearest(RoundHalfEven(Mean(xs)), |xs|, total)
  {
    MeanIsTotal(xs);
    NearestToQuotient(Mean(xs), |xs|, total);
  }

  lemma NearestToQuotient(x: real, n: int, total: int)
    requires n > 0 && x * n as real == total as real
    ensures Nearest(RoundHalfEven(x), n, total)
  {
    var r := RoundHalfEven(x);
    RoundsToNearest(x);
    ScaledDistance(n as real, r as real, x, total as real);
    ProductAsReal(n, r);
  }

  lemma {:induction false} ProductAsReal(n: nat, r: int)
    ensures (n * r) as real == n as real * r as real
  {
    if n > 0 {
      ProductAsReal(n - 1, r);
      assert n * r == (n - 1) * r + r;
      assert n as real * r as real == (n - 1) as real * r as real + r as real;
    }
  }

  lemma RoundsToNearest(x: real)
    ensures -0.5 <= RoundHalfEven(x) as real - x <= 0.5
    ensures RoundHalfEven(x) as real - x == 0.5 || RoundHalfEven(x) as real - x == -0.5 ==> Even(RoundHalfEven(x))
  {
  }

  /** How far n times a number is from a total, if the number is near to the mean. */
  lemma ScaledDistance(n: real, r: real, x: real, total: real)
    requires n > 0.0 && x * n == total && -0.5 <= r - x <= 0.5
    ensures -n <= 2.0 * (n * r - total) <= n
    ensures 2.0 * (n * r - total) == n ==> r - x == 0.5
    ensures 2.0 * (n * r - total) == -n ==> r - x == -0.5
  {
    var d := r - x;
    Distribute(n, r, x, d);
    ScaleBounds(n, d);
    assert n * r - total == n * d;
  }

  lemma Distribute(n: real, r: real, x: real, d: real)
    requires d == r - x
    ensures n * d == n * r - x * n
  {
  }

  lemma ScaleBounds(n: real, d: real)
    requires n > 0.0 && -0.5 <= d <= 0.5
    ensures -0.5 * n <= n * d <= 0.5 * n
    ensures n * d == 0.5 * n ==> d == 0.5
    ensures n * d == -0.5 * n ==> d == -0.5
  {
    Positive(n, 0.5 - d);
    Positive(n, d + 0.5);
    assert n * (0.5 - d) == 0.5 * n - n * d;
    assert n * (d + 0.5) == n * d + 0.5 * n;
  }

  lemma Positive(n: real, d: real)
    requires n > 0.0 && d >= 0.0
    ensures n * d >= 0.0 && (n * d == 0.0 ==> d == 0.0)
  {
  }

  /** n values of the given total have this mean, up to rounding to four decimals. */
  predicate MeanUpToRounding(n: nat, mean: real, total: real) {
    -0.00005 * n as real <= n as real * mean - total <= 0.00005 * n as real
  }

  lemma RoundedMeanIs(xs: seq<real>)
    requires xs != []
    ensures MeanUpToRounding(|xs|, RoundTo4(Mean(xs)), Total(xs))
  {
    MeanIsTotal(xs);
    RoundedNear(Mean(xs), |xs|, Total(xs));
  }

  lemma RoundedNear(x: real, n: nat, total: real)
    requires n > 0 && x * n as real == total
    ensures MeanUpToRounding(n, RoundTo4(x), total)
  {
    RoundTo4IsNear(x);
    SmallDistance(n as real, RoundTo4(x), x, total);
  }

  lemma SmallDistance(n: real, r: real, x: real, total: real)
    requires n > 0.0 && x * n == total && -0.00005 <= r - x <= 0.00005
    ensures -0.00005 * n <= n * r - total <= 0.00005 * n
  {
    var d := r - x;
    Distribute(n, r, x, d);
    Positive(n, 0.00005 - d);
    Positive(n, d + 0.00005);
    assert n * (0.00005 - d) == 0.00005 * n - n * d;
    assert n * (d + 0.00005) == n * d + 0.00005 * n;
  }

  predicate Degraded(o: Stored) {
    o.data.degraded == Some(true)
  }

  /** The confidence is the mean up to rounding; the state is stable exactly with enough
      observations; and a freeze is asked for exactly if it is not, the confidence is below the
      threshold, or some observation is degraded. */
  lemma StateIs(obs: seq<Stored>, c: Config)
    ensures StateOf(obs, c) == None <==> obs == []
    ensures obs != [] ==>
              var s := StateOf(obs, c).value;
              && MeanUpToRounding(|obs|, s.confidence, TotalConfidence(obs))
              && s.stability.observationsInWindow == |obs|
              && (s.stability.stateStable <==> |obs| >= c.minStability)
              && (s.stability.freezeDecision <==>
                    |obs| < c.minStability || s.confidence < c.confidenceThreshold || exists o :: o in obs && Degraded(o))
  {
    if obs != [] {
      RoundedMeanIs(Confidences(obs));
      ConfidenceTotal(obs);
      assert AnyDegraded(obs) <==> exists o :: o in obs && Degraded(o);
    }
  }

  // ---------- demographics ----------

  /** The observation reports this share for the bin, in the group to which the bin belongs. */
  predicate Reports(o: Stored, b: Bin, share: real) {
    && o.data.demographics.Some?
    && var d := o.data.demographics.value;
       var group := match b
         case Child | YoungAdult | Adult | Senior => d.age
         case Male | Female => d.gender
         case _ => d.attire;
       group.Some? && b in group.value && group.value[b] == share
  }

  predicate ReportsBin(o: Stored, b: Bin) {
    ShareOf(o, GroupOf(b), b).Some?
  }

  lemma ReportsShare(o: Stored, b: Bin, share: real)
    ensures ShareOf(o, GroupOf(b), b) == Some(share) <==> Reports(o, b, share)
  {
  }

  predicate AllReport(obs: seq<Stored>, b: Bin) {
    forall o :: o in obs ==> ReportsBin(o, b)
  }

  predicate SameGroup(a: Bin, b: Bin) {
    GroupOf(a) == GroupOf(b)
  }

  /** The sum of the shares reported for a bin. */
  function TotalShare(obs: seq<Stored>, b: Bin): real
    requires AllReport(obs, b)
  {
    if obs == [] then 0.0
    else
      assert obs[0] in obs;
      ShareOf(obs[0], GroupOf(b), b).value + TotalShare(obs[1..], b)
  }

  lemma {:induction false} ShareTotal(obs: seq<Stored>, b: Bin)
    requires AllReport(obs, b) && AllHave(obs, GroupOf(b), b)
    ensures Total(Shares(obs, GroupOf(b), b)) == TotalShare(obs, b)
  {
    if obs != [] {
      ShareTotal(obs[1..], b);
      assert Shares(obs, GroupOf(b), b)[1..] == Shares(obs[1..], GroupOf(b), b);
    }
  }

  lemma AllReportIsAllHave(obs: seq<Stored>, b: Bin)
    ensures AllReport(obs, b) <==> AllHave(obs, GroupOf(b), b)
  {
    if AllReport(obs, b) {
      forall i | 0 <= i < |obs|
        ensures ShareOf(obs[i], GroupOf(b), b).Some?
      {
        assert obs[i] in obs;
      }
    }
  }

  /** All observations have demographics, they are confident enough on average, and all of them
      report every age bin. */
  ghost predicate MayShow(obs: seq<Stored>, c: Config) {
    && obs != [] && (forall o :: o in obs ==> HasDemographics(o))
    && Reaches(|obs|, TotalConfidence(obs), c.confidenceThreshold)
    && (forall b :: SameGroup(b, Policy.Child) ==> AllReport(obs, b))
  }

  lemma {:induction false} GroupComplete(obs: seq<Stored>, g: Group, bins: seq<Bin>)
    requires obs != []
    ensures GroupMeans(obs, g, bins).Some? <==> forall b :: b in bins ==> AllHave(obs, g, b)
  {
    if bins != [] {
      GroupComplete(obs, g, bins[..|bins| - 1]);
      assert forall b :: b in bins <==> b in bins[..|bins| - 1] || b == bins[|bins| - 1];
    }
  }

  lemma WholeGroup(obs: seq<Stored>, g: Group)
    requires obs != []
    ensures GroupMeans(obs, g, BinsOf(g)).Some? <==> forall b :: GroupOf(b) == g ==> AllReport(obs, b)
  {
    GroupComplete(obs, g, BinsOf(g));
    forall b
      ensures b in BinsOf(g) <==> GroupOf(b) == g
      ensures GroupOf(b) == g ==> (AllReport(obs, b) <==> AllHave(obs, g, b))
    {
      GroupOfBin(b, g);
      AllReportIsAllHave(obs, b);
    }
  }

  /** n values of the given total reach the threshold on average. */
  predicate Reaches(n: nat, total: real, threshold: real) {
    total >= threshold * n as real
  }

  lemma ConfidentEnough(obs: seq<Stored>, threshold: real)
    requires obs != []
    ensures Mean(Confidences(obs)) >= threshold <==> Reaches(|obs|, TotalConfidence(obs), threshold)
  {
    ConfidenceTotal(obs);
    MeanReaches(Confidences(obs), threshold);
  }

  lemma MeanReaches(xs: seq<real>, threshold: real)
    requires xs != []
    ensures Mean(xs) >= threshold <==> Reaches(|xs|, Total(xs), threshold)
  {
    MeanIsTotal(xs);
    SameOrder(|xs| as real, Mean(xs), threshold);
  }

  lemma SameOrder(n: real, x: real, y: real)
    requires n > 0.0
    ensures x >= y <==> x * n >= y * n
  {
    var d := x - y;
    Distribute(n, x, y, d);
    if x >= y {
      Positive(n, d);
    } else {
      Positive(n, -d);
      assert n * (-d) == -(n * d);
    }
  }

  /** Nothing is said of demographics exactly if no observation has any; they are shown exactly if
      they may be; and otherwise they are suppressed, without a value. */
  lemma DemographicsAre(obs: seq<Stored>, c: Config)
    ensures DemographicsOf(obs, c) == None <==> forall o :: o in obs ==> !HasDemographics(o)
    ensures Shown(obs, c) <==> MayShow(obs, c)
    ensures DemographicsOf(obs, c).Some? && !MayShow(obs, c) ==>
              DemographicsOf(obs, c) == Some(Policy.Demographics(Some(true), map[], None))
  {
    if obs != [] {
      assert obs[0] in obs;
      WholeGroup(obs, AgeGroup);
      ConfidentEnough(obs, c.confidenceThreshold);
      assert forall b :: SameGroup(b, Policy.Child) <==> GroupOf(b) == AgeGroup;
    }
  }

  /** A shown bin is one whose whole group all observations report, and it is the mean of its
      shares up to rounding; the dwell estimate is the newest observation's. */
  lemma ShownBinsAre(obs: seq<Stored>, c: Config, b: Bin)
    requires Shown(obs, c)
    ensures var d := DemographicsOf(obs, c).value;
            && (b in d.bins <==> forall a :: SameGroup(a, b) ==> AllReport(obs, a))
            && (b in d.bins ==>
                  AllReport(obs, b) && MeanUpToRounding(|obs|, d.bins[b], TotalShare(obs, b)))
            && obs != [] && obs[|obs| - 1].data.demographics.Some?
            && d.dwellEstimateMs == obs[|obs| - 1].data.demographics.value.dwellEstimateMs
  {
    ShownDemographicsAreComplete(obs, c);
    assert obs[|obs| - 1] in obs;
    WholeGroup(obs, GroupOf(b));
    ShownBinOf(obs, AgeGroup, b);
    ShownBinOf(obs, GenderGroup, b);
    ShownBinOf(obs, AttireGroup, b);
    assert forall a :: SameGroup(a, b) <==> GroupOf(a) == GroupOf(b);
    if b in DemographicsOf(obs, c).value.bins {
      assert SameGroup(b, b);
      ShownBin(obs, c, b);
      GroupMeansAre(obs, GroupOf(b), BinsOf(GroupOf(b)), b);
      GroupOfBin(b, GroupOf(b));
      RoundedMeanIs(Shares(obs, GroupOf(b), b));
      ShareTotal(obs, b);
    }
  }

  // ---------- attention ----------

  datatype Aspect = Engaged | Ambient

  function Reported(o: Stored, a: Aspect): Option<real> {
    if o.data.attention == None then None
    else if a.Engaged? then o.data.attention.value.engaged else o.data.attention.value.ambient
  }

  function Reporting(obs: seq<Stored>, a: Aspect): nat {
    if obs == [] then 0 else (if Reported(obs[0], a).Some? then 1 else 0) + Reporting(obs[1..], a)
  }

  function TotalReported(obs: seq<Stored>, a: Aspect): real {
    if obs == [] then 0.0
    else (if Reported(obs[0], a).Some? then Reported(obs[0], a).value else 0.0) + TotalReported(obs[1..], a)
  }

  lemma {:induction false} ReportedAppend(obs: seq<Stored>, o: Stored, a: Aspect)
    ensures Reporting(obs + [o], a) == Reporting(obs, a) + if Reported(o, a).Some? then 1 else 0
    ensures TotalReported(obs + [o], a)
         == TotalReported(obs, a) + if Reported(o, a).Some? then Reported(o, a).value else 0.0
  {
    if obs == [] {
      assert (obs + [o])[1..] == [];
    } else {
      assert (obs + [o])[1..] == obs[1..] + [o];
      ReportedAppend(obs[1..], o, a);
    }
  }

  lemma {:induction false} ValuesTotal(obs: seq<Stored>)
    ensures |EngagedValues(obs)| == Reporting(obs, Engaged) && Total(EngagedValues(obs)) == TotalReported(obs, Engaged)
    ensures |AmbientValues(obs)| == Reporting(obs, Ambient) && Total(AmbientValues(obs)) == TotalReported(obs, Ambient)
  {
    if obs != [] {
      var before, o := obs[..|obs| - 1], obs[|obs| - 1];
      ValuesTotal(before);
      assert obs == before + [o];
      ReportedAppend(before, o, Engaged);
      ReportedAppend(before, o, Ambient);
      if Reported(o, Engaged).Some? {
        TotalAppend(EngagedValues(before), Reported(o, Engaged).value);
      }
      if Reported(o, Ambient).Some? {
        TotalAppend(AmbientValues(before), Reported(o, Ambient).value);
      }
    }
  }

  /** A smoothed aspect is there exactly if some observation reports it, and it is the mean of
      those that do, up to rounding. */
  ghost predicate AspectIs(value: Option<real>, obs: seq<Stored>, a: Aspect) {
    && (value.Some? <==> Reporting(obs, a) > 0)
    && (value.Some? ==> MeanUpToRounding(Reporting(obs, a), value.value, TotalReported(obs, a)))
  }

  lemma AttentionIs(obs: seq<Stored>)
    ensures var attention := AttentionOf(obs);
            && AspectIs(if attention.Some? then attention.value.engaged else None, obs, Engaged)
            && AspectIs(if attention.Some? then attention.value.ambient else None, obs, Ambient)
            && (attention.Some? <==> Reporting(obs, Engaged) > 0 || Reporting(obs, Ambient) > 0)
  {
    ValuesTotal(obs);
    if EngagedValues(obs) != [] {
      RoundedMeanIs(EngagedValues(obs));
    }
    if AmbientValues(obs) != [] {
      RoundedMeanIs(AmbientValues(obs));
    }
  }

  /** The age is that of the last entry, in milliseconds that have passed in full. */
  lemma NewestAgeIs(obs: seq<Stored>, now: real)
    requires obs != [] && obs[|obs| - 1].receivedAt <= now
    ensures NewestAgeMs(obs, now).Some? && NewestAgeMs(obs, now).value >= 0
    ensures var age := NewestAgeMs(obs, now).value;
            age as real <= (now - obs[|obs| - 1].receivedAt) * 1000.0 < (age + 1) as real
  {
    WholeMillis(obs[|obs| - 1].receivedAt, now);
  }

  // ---------- the whole signal ----------

  /** What presence and stability of a signal say of the window at its reading. */
  ghost predicate StateSays(s: Policy.Signal, obs: seq<Stored>, c: Config) {
    && obs != []
    && Nearest(s.count, |obs|, Persons(obs))
    && MeanUpToRounding(|obs|, s.confidence, TotalConfidence(obs))
    && s.stability.observationsInWindow == |obs|
    && (s.stability.stateStable <==> |obs| >= c.minStability)
    && (s.stability.freezeDecision <==>
          |obs| < c.minStability || s.confidence < c.confidenceThreshold || exists o :: o in obs && Degraded(o))
  }

  ghost predicate AttentionSays(attention: Option<Policy.Attention>, obs: seq<Stored>) {
    && AspectIs(if attention.Some? then attention.value.engaged else None, obs, Engaged)
    && AspectIs(if attention.Some? then attention.value.ambient else None, obs, Ambient)
  }

  /** The age is that of the newest entry in the window, in full milliseconds; 0 with none. */
  ghost predicate AgeSays(age: int, obs: seq<Stored>, now: real) {
    if obs == [] then age == 0
    else obs[|obs| - 1].receivedAt <= now ==>
           age >= 0 && age as real <= (now - obs[|obs| - 1].receivedAt) * 1000.0 < (age + 1) as real
  }

  lemma AgeIs(obs: seq<Stored>, now: real)
    ensures AgeSays(S.OrZero(NewestAgeMs(obs, now)), obs, now)
  {
    if obs != [] && obs[|obs| - 1].receivedAt <= now {
      NewestAgeIs(obs, now);
    }
  }

  /** A signal is built exactly if something is in the window, and each of its parts says what the
      observations say that were in the window at that part's reading of the clock. */
  lemma SignalSays(log: seq<Stored>, c: Config, r: S.Readings)
    ensures var signal := S.SignalOf(log, c, r);
            && (signal.Some? <==> InWindow(log, c, r.state) != [])
            && (signal.Some? ==>
                  && StateSays(signal.value, InWindow(log, c, r.state), c)
                  && (signal.value.pipelineDegraded <==> exists o :: o in InWindow(log, c, r.degraded) && Degraded(o))
                  && (signal.value.demographics == None
                      <==> forall o :: o in InWindow(log, c, r.demographics) ==> !HasDemographics(o))
                  && (signal.value.demographics.Some? ==>
                        signal.value.demographics.value.suppressed == Some(!MayShow(InWindow(log, c, r.demographics), c)))
                  && AttentionSays(signal.value.attention, InWindow(log, c, r.attention))
                  && AgeSays(signal.value.signalAgeMs, InWindow(log, c, r.age), r.ageDifference))
  {
    AgeIs(InWindow(log, c, r.age), r.ageDifference);
    var now := InWindow(log, c, r.state);
    StateIs(now, c);
    if now != [] {
      SmoothedCountIsNearest(now, c);
    }
    DemographicsAre(InWindow(log, c, r.demographics), c);
    AttentionIs(InWindow(log, c, r.attention));
    assert AnyDegraded(InWindow(log, c, r.degraded)) <==> exists o :: o in InWindow(log, c, r.degraded) && Degraded(o);
  }
}
