/**
 Withheld demographics leave no trace: not in the signals built from camera observations,
 and not in the commands issued on such signals, over whole runs.
 */
module Privacy {
  import opened Wrappers
  import opened Policy
  import opened Recency
  import W = Window
  import S = Signals
  import L = DecisionLoop

  // ---------- from observations to signals ----------

  /** The observations differ at most in demographic values: the same groups and bins are there. */
  ghost predicate SameButValues(o: W.Stored, p: W.Stored) {
    && o.receivedAt == p.receivedAt
    && o.data.(demographics := None) == p.data.(demographics := None)
    && (W.HasDemographics(o) <==> W.HasDemographics(p))
    && forall g, b :: W.ShareOf(o, g, b).Some? <==> W.ShareOf(p, g, b).Some?
  }

  ghost predicate LogsAlike(log: seq<W.Stored>, other: seq<W.Stored>) {
    |log| == |other| && forall i :: 0 <= i < |log| ==> SameButValues(log[i], other[i])
  }

  lemma {:induction false} RecentAlike(log: seq<W.Stored>, other: seq<W.Stored>, cutoff: real)
    requires LogsAlike(log, other)
    ensures LogsAlike(Recent(log, W.ReceivedAt, cutoff), Recent(other, W.ReceivedAt, cutoff))
  {
    if log != [] {
      var n := |log| - 1;
      RecentAlike(log[..n], other[..n], cutoff);
      assert SameButValues(log[n], other[n]);
    }
  }

  lemma StateAlike(obs: seq<W.Stored>, other: seq<W.Stored>, c: W.Config)
    requires LogsAlike(obs, other)
    ensures W.Confidences(obs) == W.Confidences(other)
    ensures W.AnyDegraded(obs) == W.AnyDegraded(other)
    ensures W.StateOf(obs, c) == W.StateOf(other, c)
  {
    assert forall i :: 0 <= i < |obs| ==> obs[i].data.(demographics := None) == other[i].data.(demographics := None);
    assert W.Counts(obs) == W.Counts(other);
    assert W.Confidences(obs) == W.Confidences(other);
    DegradedAlike(obs, other);
    DegradedAlike(other, obs);
  }

  lemma DegradedAlike(obs: seq<W.Stored>, other: seq<W.Stored>)
    requires |obs| == |other|
    requires forall i :: 0 <= i < |obs| ==> obs[i].data.degraded == other[i].data.degraded
    ensures W.AnyDegraded(obs) ==> W.AnyDegraded(other)
  {
    if W.AnyDegraded(obs) {
      var o :| o in obs && o.data.degraded == Some(true);
      var i :| 0 <= i < |obs| && obs[i] == o;
      assert other[i] in other;
    }
  }

  lemma {:induction false} AttentionAlike(obs: seq<W.Stored>, other: seq<W.Stored>)
    requires LogsAlike(obs, other)
    ensures W.EngagedValues(obs) == W.EngagedValues(other)
    ensures W.AmbientValues(obs) == W.AmbientValues(other)
  {
    if obs != [] {
      var n := |obs| - 1;
      AttentionAlike(obs[..n], other[..n]);
      assert SameButValues(obs[n], other[n]);
      assert obs[n].data.attention == obs[n].data.(demographics := None).attention;
      assert other[n].data.attention == other[n].data.(demographics := None).attention;
    }
  }

  lemma BinAlike(obs: seq<W.Stored>, other: seq<W.Stored>, g: W.Group, b: Bin)
    requires LogsAlike(obs, other)
    ensures W.AllHave(obs, g, b) <==> W.AllHave(other, g, b)
  {
    assert forall i :: 0 <= i < |obs| ==> SameButValues(obs[i], other[i]);
  }

  lemma {:induction false} GroupAlike(obs: seq<W.Stored>, other: seq<W.Stored>, g: W.Group, bins: seq<Bin>)
    requires LogsAlike(obs, other) && obs != []
    ensures W.GroupMeans(obs, g, bins).Some? <==> W.GroupMeans(other, g, bins).Some?
  {
    if bins != [] {
      GroupAlike(obs, other, g, bins[..|bins| - 1]);
      BinAlike(obs, other, g, bins[|bins| - 1]);
    }
  }

  lemma PresenceAlike(obs: seq<W.Stored>, other: seq<W.Stored>)
    requires LogsAlike(obs, other)
    ensures (forall o :: o in obs ==> !W.HasDemographics(o)) ==> forall o :: o in other ==> !W.HasDemographics(o)
    ensures (forall o :: o in obs ==> W.HasDemographics(o)) ==> forall o :: o in other ==> W.HasDemographics(o)
  {
    forall o | o in other
      ensures exists p :: p in obs && (W.HasDemographics(p) <==> W.HasDemographics(o))
    {
      var i :| 0 <= i < |other| && other[i] == o;
      assert obs[i] in obs && SameButValues(obs[i], other[i]);
    }
  }

  lemma LogsAlikeSymmetric(log: seq<W.Stored>, other: seq<W.Stored>)
    requires LogsAlike(log, other)
    ensures LogsAlike(other, log)
  {
    forall i | 0 <= i < |log|
      ensures SameButValues(other[i], log[i])
    {
      assert SameButValues(log[i], other[i]);
    }
  }

  /** What is withheld of one window is withheld of the other. */
  lemma WithheldAlike(obs: seq<W.Stored>, other: seq<W.Stored>, c: W.Config)
    requires LogsAlike(obs, other) && !W.Shown(obs, c)
    ensures W.DemographicsOf(obs, c) == W.DemographicsOf(other, c)
  {
    LogsAlikeSymmetric(obs, other);
    PresenceAlike(obs, other);
    PresenceAlike(other, obs);
    StateAlike(obs, other, c);
    if obs != [] {
      GroupAlike(obs, other, W.AgeGroup, W.AGE_BINS);
    }
  }

  /** Two histories of observations that differ in demographic values only give the same signal
      whenever demographics are suppressed or absent in the window of one of them. */
  lemma WithheldValuesLeaveNoTrace(log: seq<W.Stored>, other: seq<W.Stored>, c: W.Config, r: S.Readings)
    requires LogsAlike(log, other) && !W.Shown(W.InWindow(log, c, r.demographics), c)
    ensures S.SignalOf(log, c, r) == S.SignalOf(other, c, r)
  {
    RecentAlike(log, other, W.Cutoff(c, r.state));
    RecentAlike(log, other, W.Cutoff(c, r.age));
    RecentAlike(log, other, W.Cutoff(c, r.degraded));
    RecentAlike(log, other, W.Cutoff(c, r.demographics));
    RecentAlike(log, other, W.Cutoff(c, r.attention));
    StateAlike(W.InWindow(log, c, r.state), W.InWindow(other, c, r.state), c);
    StateAlike(W.InWindow(log, c, r.degraded), W.InWindow(other, c, r.degraded), c);
    WithheldAlike(W.InWindow(log, c, r.demographics), W.InWindow(other, c, r.demographics), c);
    AttentionAlike(W.InWindow(log, c, r.attention), W.InWindow(other, c, r.attention));
    AgeAlike(W.InWindow(log, c, r.age), W.InWindow(other, c, r.age), r.ageDifference);
  }

  lemma AgeAlike(obs: seq<W.Stored>, other: seq<W.Stored>, now: real)
    requires LogsAlike(obs, other)
    ensures W.NewestAgeMs(obs, now) == W.NewestAgeMs(other, now)
  {
    if obs != [] {
      assert SameButValues(obs[|obs| - 1], other[|obs| - 1]);
    }
  }

  // ---------- from signals to commands ----------

  /** The ticks see the same, except for demographics that both signals withhold. */
  predicate TicksAlike(t: L.Tick, u: L.Tick) {
    && t.(signal := None) == u.(signal := None)
    && (|| t.signal == u.signal
        || (t.signal.Some? && u.signal.Some? && SameButWithheldDemographics(t.signal.value, u.signal.value)))
  }

  predicate StepsAlike(a: L.Step, b: L.Step) {
    match (a, b)
    case (Ticking(t), Ticking(u)) => TicksAlike(t, u)
    case (Reload(e), Reload(f)) => e == f
    case _ => false
  }

  lemma TickUnaffected(l: L.Loop, t: L.Tick, u: L.Tick, staleMs: int)
    requires TicksAlike(t, u)
    ensures L.OnTick(l, t, staleMs) == L.OnTick(l, u, staleMs)
  {
    if t.signal != u.signal {
      var s, w := t.signal.value, u.signal.value;
      assert s.stability == s.(demographics := None).stability == w.(demographics := None).stability;
      assert s.pipelineDegraded == s.(demographics := None).pipelineDegraded == w.(demographics := None).pipelineDegraded;
      SuppressedDemographicsDoNotInfluence(l.engine.rules, s, w, t.hour);
      assert t.hour == t.(signal := None).hour == u.hour;
      assert t.pick == t.(signal := None).pick == u.pick;
      assert t.ageMs == t.(signal := None).ageMs == u.ageMs;
    }
  }

  /** Two runs of the loop whose signals differ in withheld demographics only issue the same
      commands, whatever the policies are. */
  lemma {:induction false} WithheldDemographicsLeaveNoTrace(engine: L.Engine, steps: seq<L.Step>, others: seq<L.Step>, staleMs: int)
    requires |steps| == |others| && forall i :: 0 <= i < |steps| ==> StepsAlike(steps[i], others[i])
    ensures L.Run(engine, steps, staleMs) == L.Run(engine, others, staleMs)
  {
    if steps != [] {
      var n := |steps| - 1;
      WithheldDemographicsLeaveNoTrace(engine, steps[..n], others[..n], staleMs);
      assert StepsAlike(steps[n], others[n]);
      if steps[n].Ticking? {
        TickUnaffected(L.Run(engine, steps[..n], staleMs), steps[n].tick, others[n].tick, staleMs);
      }
    }
  }
}
