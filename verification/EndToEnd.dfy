/**
 Guarantees across the services: what an issued activation says about the audience in front
 of the camera, and what the rules synchronised from the dashboard choose.
 */
module EndToEnd {
  import opened Wrappers
  import P = Policy
  import W = Window
  import R = Rounding
  import S = Signals
  import L = DecisionLoop
  import A = Approval
  import CP = CompiledPolicy
  import RC = RuleCompiler
  import CC = CompilerCorrectness
  import K = Ranking

  // ---------- from the camera to an activation ----------

  /** This tick issues an activation of this manifest. */
  predicate TickActivates(l: L.Loop, t: L.Tick, staleMs: int, m: P.ManifestId) {
    L.OnTick(l, t, staleMs).issued
    == l.issued + [L.ActivateIssued(m, l.engine.minDwellMs, l.engine.cooldownMs)]
  }

  lemma ActivationNeedsSignal(l: L.Loop, t: L.Tick, staleMs: int, m: P.ManifestId)
    requires TickActivates(l, t, staleMs, m)
    ensures t.signal.Some? && L.FreezeReason(t, staleMs) == None
    ensures P.Evaluate(l.engine.rules, t.signal.value, t.hour, t.pick) == Some(m)
  {
    var after := L.OnTick(l, t, staleMs).issued;
    assert after[|l.issued|] == L.ActivateIssued(m, l.engine.minDwellMs, l.engine.cooldownMs);
  }

  /** Enough observations, none of a degraded pipeline, that are confident on average. */
  ghost predicate Evidence(obs: seq<W.Stored>, c: W.Config) {
    && obs != [] && |obs| >= c.minStability
    && (forall o :: o in obs ==> o.data.degraded != Some(true))
    && R.Mean(W.Confidences(obs)) >= c.confidenceThreshold - 0.00005
  }

  /** An activation issued on a signal rests on evidence: the window behind the signal holds at
      least the minimum of observations, none degraded, and their true mean confidence misses
      the threshold by at most the rounding. */
  lemma ActivationRestsOnEvidence(l: L.Loop, t: L.Tick, staleMs: int, m: P.ManifestId,
                                  log: seq<W.Stored>, c: W.Config, r: S.Readings)
    requires TickActivates(l, t, staleMs, m) && t.signal == S.SignalOf(log, c, r)
    ensures Evidence(W.InWindow(log, c, r.state), c)
    ensures t.ageMs.Some? ==> t.ageMs.value <= staleMs
  {
    ActivationNeedsSignal(l, t, staleMs, m);
    var obs := W.InWindow(log, c, r.state);
    R.RoundTo4IsNear(R.Mean(W.Confidences(obs)));
    forall o | o in obs
      ensures o.data.degraded != Some(true)
    {
      assert !W.AnyDegraded(obs);
    }
  }

  /** The slack for rounding cannot be dropped: a mean below the threshold may pass. */
  lemma RoundingLetsPass(o: W.Stored, c: W.Config)
    requires o.data.confidence == 0.59996 && o.data.degraded == None
    requires c.minStability == 1 && c.confidenceThreshold == 0.6
    ensures R.Mean(W.Confidences([o])) < c.confidenceThreshold
    ensures !W.StateOf([o], c).value.stability.freezeDecision
  {
    var xs := W.Confidences([o]);
    assert xs[..|xs| - 1] == [];
    assert xs == [0.59996] && R.Sum(xs) == R.Sum([]) + 0.59996;
    assert (5999.6).Floor == 5999;
  }

  /** Complete demographics with a share: every observation carries the bin, they are confident
      enough, and the bin's true mean share misses the threshold by at most the rounding. */
  ghost predicate ShareEvidence(obs: seq<W.Stored>, c: W.Config, b: P.Bin, threshold: real) {
    && obs != [] && (forall o :: o in obs ==> W.HasDemographics(o))
    && R.Mean(W.Confidences(obs)) >= c.confidenceThreshold
    && W.AllHave(obs, W.GroupOf(b), b)
    && R.Mean(W.Shares(obs, W.GroupOf(b), b)) >= threshold - 0.00005
  }

  /** The rule through which a tick chooses has this positive threshold on a bin. */
  predicate ChoosesByBin(l: L.Loop, t: L.Tick, b: P.Bin, threshold: real) {
    && t.signal.Some? && threshold > 0.0
    && var tier := P.Tier(l.engine.rules, t.signal.value, t.hour);
       P.Drawable(tier) != [] && b in P.Choose(tier, t.pick).binGte && P.Choose(tier, t.pick).binGte[b] == threshold
  }

  /** An activation through a rule with a positive threshold on a demographic bin rests on complete
      demographics with such a share; the activated manifest is the rule's. */
  lemma TargetingRestsOnShares(l: L.Loop, t: L.Tick, staleMs: int, m: P.ManifestId,
                               log: seq<W.Stored>, c: W.Config, r: S.Readings, b: P.Bin, threshold: real)
    requires TickActivates(l, t, staleMs, m) && t.signal == S.SignalOf(log, c, r)
    requires ChoosesByBin(l, t, b, threshold)
    ensures P.Choose(P.Tier(l.engine.rules, t.signal.value, t.hour), t.pick).manifestId == m
    ensures ShareEvidence(W.InWindow(log, c, r.demographics), c, b, threshold)
  {
    var s, obs := t.signal.value, W.InWindow(log, c, r.demographics);
    ActivationNeedsSignal(l, t, staleMs, m);
    P.EvaluateChoosesTopmost(l.engine.rules, s, t.hour, t.pick);
    var rule := P.Choose(P.Tier(l.engine.rules, s, t.hour), t.pick);
    BinRuleNeedsShownBin(rule, s, t.hour, b);
    assert s.demographics == W.DemographicsOf(obs, c);
    assert W.Shown(obs, c);
    W.ShownDemographicsAreComplete(obs, c);
    W.ShownDemographicsAreMeans(obs, c, b);
  }

  lemma BinRuleNeedsShownBin(rule: P.Rule, s: P.Signal, hour: int, b: P.Bin)
    requires P.Matches(rule, s, hour) && b in rule.binGte && rule.binGte[b] > 0.0
    ensures s.demographics.Some? && s.demographics.value.suppressed == Some(false)
    ensures b in s.demographics.value.bins && s.demographics.value.bins[b] >= rule.binGte[b]
  {
    assert rule.binGte != map[];
    assert P.BinValue(s, b) >= rule.binGte[b];
  }

  // ---------- from an approval to the rules ----------

  /** After k requests the manifest was enabled and on disk, with an approval that no rejection
      had revoked. */
  ghost predicate ApprovedAt(requests: seq<A.Request>, k: nat, m: P.ManifestId)
    requires k <= |requests|
  {
    var o := A.Run(requests[..k]);
    && m in o.now.rows && o.now.rows[m].status == A.Enabled && m in o.now.disk
    && A.ApprovedLast(A.LastDecision(o.done, m))
  }

  lemma EnabledIsApproved(requests: seq<A.Request>, k: nat, m: P.ManifestId)
    requires k <= |requests|
    requires var c := A.Run(requests[..k]).now; m in c.rows && c.rows[m].status == A.Enabled
    ensures ApprovedAt(requests, k, m)
  {
    A.DiskAlwaysMirrorsEnabled(requests[..k]);
    A.StatusTellsDecision(requests[..k], m);
  }

  /** The rules synchronised from the dashboard after k requests always choose, and choose what
      was approved, enabled and on disk then; the stub only if nothing was enabled. */
  lemma SynchronisedChoiceIsApproved(requests: seq<A.Request>, k: nat, ids: seq<P.ManifestId>,
                                     s: P.Signal, hour: int, pick: nat)
    requires k <= |requests| && A.ListsEnabled(A.Run(requests[..k]).now, ids)
    ensures var chosen := P.Evaluate(CP.Compiled(A.CreativesOf(A.Run(requests[..k]).now, ids)), s, hour, pick);
            && chosen.Some?
            && if ids == [] then chosen.value == "manifest-attract" else ApprovedAt(requests, k, chosen.value)
  {
    var creatives := A.CreativesOf(A.Run(requests[..k]).now, ids);
    CP.CompiledChoiceIsEnabled(creatives, s, hour, pick);
    var chosen := P.Evaluate(CP.Compiled(creatives), s, hour, pick);
    if ids != [] {
      assert chosen.value in ids;
      EnabledIsApproved(requests, k, chosen.value);
    }
  }

  /** The rank of a row, by its tags. */
  ghost function RowRank(c: A.Catalogue, id: P.ManifestId, s: P.Signal, hour: int): K.Rank
    requires id in c.rows
  {
    K.RankOf(c.rows[id].tags, s, hour)
  }

  /** The row is enabled and has a rank, and no enabled row a higher one. */
  ghost predicate HighestRow(c: A.Catalogue, id: P.ManifestId, s: P.Signal, hour: int) {
    && A.IsEnabled(c, id) && RowRank(c, id, s, hour).Some?
    && forall other :: A.IsEnabled(c, other) && RowRank(c, other, s, hour).Some? ==>
         RowRank(c, other, s, hour).value <= RowRank(c, id, s, hour).value
  }

  lemma CreativeOfRow(c: A.Catalogue, ids: seq<P.ManifestId>)
    requires A.ListsEnabled(c, ids)
    ensures forall id :: A.IsEnabled(c, id) ==> RC.Creative(id, c.rows[id].tags) in A.CreativesOf(c, ids)
    ensures forall x :: x in A.CreativesOf(c, ids) ==> A.IsEnabled(c, x.manifestId) && x.tags == c.rows[x.manifestId].tags
  {
    var creatives := A.CreativesOf(c, ids);
    forall id | A.IsEnabled(c, id)
      ensures RC.Creative(id, c.rows[id].tags) in creatives
    {
      assert id in ids;
      var i :| 0 <= i < |ids| && ids[i] == id;
      assert creatives[i] == RC.Creative(id, c.rows[id].tags);
    }
    forall x | x in creatives
      ensures A.IsEnabled(c, x.manifestId) && x.tags == c.rows[x.manifestId].tags
    {
      var i :| 0 <= i < |creatives| && creatives[i] == x;
      assert ids[i] in ids;
    }
  }

  /** If the tags of some enabled manifest, as they were then, ask for it, one of those is chosen
      whose rank by audience, time, promotion and reminder is highest; otherwise the one that was
      enabled most recently. */
  lemma SynchronisedChoiceIsAskedFor(c: A.Catalogue, ids: seq<P.ManifestId>, s: P.Signal, hour: int, pick: nat)
    requires A.ListsEnabled(c, ids) && ids != [] && CC.HourOfDay(hour)
    ensures var chosen := P.Evaluate(CP.Compiled(A.CreativesOf(c, ids)), s, hour, pick);
            if exists id :: A.IsEnabled(c, id) && RowRank(c, id, s, hour).Some?
            then && chosen.Some? && HighestRow(c, chosen.value, s, hour)
                 && CP.Asked(RC.Creative(chosen.value, c.rows[chosen.value].tags), s, hour)
            else && chosen == Some(ids[0])
                 && (forall x :: x in A.CreativesOf(c, ids) ==> !CP.Asked(x, s, hour))
                 && forall id :: A.IsEnabled(c, id) ==> A.EnabledTime(c, ids[0]) >= A.EnabledTime(c, id)
  {
    var creatives := A.CreativesOf(c, ids);
    CreativeOfRow(c, ids);
    K.ChoiceIsHighest(creatives, s, hour, pick);
    if id :| A.IsEnabled(c, id) && RowRank(c, id, s, hour).Some? {
      assert RC.Creative(id, c.rows[id].tags) in creatives;
      var x :| x in creatives && K.Highest(x, creatives, s, hour)
               && P.Evaluate(CP.Compiled(creatives), s, hour, pick) == Some(x.manifestId);
      HighestIsRow(c, ids, x, s, hour);
      K.RankedIffAsked(x, s, hour);
    } else {
      forall x | x in creatives
        ensures !CP.Asked(x, s, hour)
      {
        K.RankedIffAsked(x, s, hour);
      }
      assert forall id :: A.IsEnabled(c, id) ==> id in ids;
    }
  }

  lemma HighestIsRow(c: A.Catalogue, ids: seq<P.ManifestId>, x: RC.Creative, s: P.Signal, hour: int)
    requires A.ListsEnabled(c, ids)
    requires x in A.CreativesOf(c, ids) && K.Highest(x, A.CreativesOf(c, ids), s, hour)
    ensures HighestRow(c, x.manifestId, s, hour)
    ensures x == RC.Creative(x.manifestId, c.rows[x.manifestId].tags)
  {
    CreativeOfRow(c, ids);
    forall other | A.IsEnabled(c, other) && RowRank(c, other, s, hour).Some?
      ensures RowRank(c, other, s, hour).value <= K.RankOf(x.tags, s, hour).value
    {
      assert RC.Creative(other, c.rows[other].tags) in A.CreativesOf(c, ids);
    }
  }

  /** A manifest chosen by rules synchronised earlier is still enabled and on disk, unless it
      has been disabled or archived since. */
  lemma ChoiceIsServedUntilWithdrawn(requests: seq<A.Request>, k: nat, m: P.ManifestId)
    requires k <= |requests| && ApprovedAt(requests, k, m)
    ensures || (m in A.Run(requests).now.disk
                && A.Run(requests).now.disk[m] == A.Run(requests[..k]).now.rows[m].json)
            || A.WithdrawnSince(A.Run(requests).done, |A.Run(requests[..k]).done|, m)
  {
    A.EnabledUntilWithdrawn(requests, k, m);
    A.ContentNeverChanges(requests, k, m);
    A.DiskAlwaysMirrorsEnabled(requests);
  }
}
