/**
 From the camera to the commands, over whole runs: observations reach the window through one
 consumer, signals built from it reach the loop through another, and both channels may lose,
 repeat and reorder messages. What each activation rests on, and what leaves no trace.
 */
module Pipeline {
  import opened Wrappers
  import P = Policy
  import W = Window
  import S = Signals
  import L = DecisionLoop
  import IdMemory
  import Rounding
  import EndToEnd
  import Privacy

  /** What has arrived, been published and been delivered, and the loop. */
  datatype Pipeline = Pipeline(
    arrivals: seq<S.Arrival>,
    published: seq<S.SignalMessage>,
    deliveries: seq<S.Delivery>,
    loop: L.Loop)

  datatype Event =
    | Arrives(arrival: S.Arrival)
    | Publishes(id: IdMemory.Id, readings: S.Readings)
    | Delivers(delivery: S.Delivery)
    | Ticks(now: real, hour: int, pick: nat)
    | Reloads(engine: L.Engine)

  datatype Settings = Settings(window: W.Config, staleMs: int)

  function Begin(e: L.Engine): Pipeline {
    Pipeline([], [], [], L.Loop(e, None, false, []))
  }

  /** One event; a message that was never published is not delivered. */
  function Next(p: Pipeline, e: Event, st: Settings): Pipeline {
    match e
    case Arrives(a) => p.(arrivals := p.arrivals + [a])
    case Publishes(id, r) =>
      var signal := S.SignalOf(S.Ingest(p.arrivals), st.window, r);
      if signal == None then p else p.(published := p.published + [S.SignalMessage(id, signal.value)])
    case Delivers(d) => if d.message in p.published then p.(deliveries := p.deliveries + [d]) else p
    case Ticks(now, hour, pick) =>
      p.(loop := L.OnTick(p.loop, L.TickOn(S.LatestOf(p.deliveries), now, hour, pick), st.staleMs))
    case Reloads(engine) => p.(loop := p.loop.(engine := engine))
  }

  function Run(e: L.Engine, events: seq<Event>, st: Settings): Pipeline {
    if events == [] then Begin(e)
    else Next(Run(e, events[..|events| - 1], st), events[|events| - 1], st)
  }

  // ---------- where a tick's signal comes from ----------

  /** At event j this message was published, with the signal built from what had arrived then. */
  ghost predicate PublishedAt(e: L.Engine, events: seq<Event>, st: Settings, j: nat, m: S.SignalMessage) {
    && j < |events| && events[j].Publishes? && events[j].id == m.messageId
    && S.SignalOf(S.Ingest(Run(e, events[..j], st).arrivals), st.window, events[j].readings) == Some(m.signal)
  }

  ghost predicate WasPublished(e: L.Engine, events: seq<Event>, st: Settings, m: S.SignalMessage) {
    exists j: nat :: PublishedAt(e, events, st, j, m)
  }

  lemma PublishedAtLater(e: L.Engine, events: seq<Event>, st: Settings, n: nat, j: nat, m: S.SignalMessage)
    requires n <= |events| && PublishedAt(e, events[..n], st, j, m)
    ensures PublishedAt(e, events, st, j, m)
  {
    assert events[..n][..j] == events[..j];
  }

  /** Whatever is published was published by some event, from what had arrived at that event. */
  lemma {:induction false} PublishedStems(e: L.Engine, events: seq<Event>, st: Settings)
    ensures forall m :: m in Run(e, events, st).published ==> WasPublished(e, events, st, m)
  {
    if events != [] {
      var n := |events| - 1;
      PublishedStems(e, events[..n], st);
      forall m | m in Run(e, events, st).published
        ensures WasPublished(e, events, st, m)
      {
        if m in Run(e, events[..n], st).published {
          var j: nat :| PublishedAt(e, events[..n], st, j, m);
          PublishedAtLater(e, events, st, n, j, m);
        } else {
          assert PublishedAt(e, events, st, n, m);
        }
      }
    }
  }

  lemma {:induction false} DeliveredWerePublished(e: L.Engine, events: seq<Event>, st: Settings)
    ensures forall d :: d in Run(e, events, st).deliveries ==> d.message in Run(e, events, st).published
  {
    if events != [] {
      DeliveredWerePublished(e, events[..|events| - 1], st);
    }
  }

  // ---------- what every activation rests on ----------

  /** What a tick would see after the first k events. */
  function TickAfter(e: L.Engine, events: seq<Event>, st: Settings, k: nat): L.Tick
    requires k < |events| && events[k].Ticks?
  {
    L.TickOn(S.LatestOf(Run(e, events[..k], st).deliveries), events[k].now, events[k].hour, events[k].pick)
  }

  /** Event k is a tick that issues an activation of this manifest. */
  predicate ActivatesAt(e: L.Engine, events: seq<Event>, st: Settings, k: nat, m: P.ManifestId) {
    && k < |events| && events[k].Ticks?
    && EndToEnd.TickActivates(Run(e, events[..k], st).loop, TickAfter(e, events, st, k), st.staleMs, m)
  }

  /** The tick at event k saw the signal published at event j, which was delivered last, by the clock
      no longer ago than allowed, and the policy in use then chose the manifest on it. */
  ghost predicate ChosenOn(e: L.Engine, events: seq<Event>, st: Settings, k: nat, j: nat, m: P.ManifestId)
    requires k < |events| && events[k].Ticks?
  {
    var p, t := Run(e, events[..k], st), TickAfter(e, events, st, k);
    && j < k && S.LatestOf(p.deliveries).Some?
    && PublishedAt(e, events, st, j, S.LatestOf(p.deliveries).value.message)
    && t.signal == Some(S.LatestOf(p.deliveries).value.message.signal)
    && (events[k].now - S.LatestOf(p.deliveries).value.at) * 1000.0 < (st.staleMs + 1) as real
    && P.Evaluate(p.loop.engine.rules, t.signal.value, t.hour, t.pick) == Some(m)
  }

  /** The log in the window service when event j published. */
  function LogAt(e: L.Engine, events: seq<Event>, st: Settings, j: nat): seq<W.Stored>
    requires j < |events|
  {
    S.Ingest(Run(e, events[..j], st).arrivals)
  }

  /** The publication at event j had enough observations in the window, none degraded, and
      confident on average up to the rounding. */
  ghost predicate EvidentAt(e: L.Engine, events: seq<Event>, st: Settings, j: nat)
    requires j < |events| && events[j].Publishes?
  {
    EndToEnd.Evidence(W.InWindow(LogAt(e, events, st, j), st.window, events[j].readings.state), st.window)
  }

  ghost predicate Grounds(e: L.Engine, events: seq<Event>, st: Settings, k: nat, j: nat, m: P.ManifestId)
    requires k < |events| && events[k].Ticks?
  {
    ChosenOn(e, events, st, k, j, m) && EvidentAt(e, events, st, j)
  }

  /** The signal that an activating tick sees was published before it. */
  lemma ActivationSawPublished(e: L.Engine, events: seq<Event>, st: Settings, k: nat, m: P.ManifestId) returns (j: nat)
    requires ActivatesAt(e, events, st, k, m)
    ensures ChosenOn(e, events, st, k, j, m)
  {
    var p, t := Run(e, events[..k], st), TickAfter(e, events, st, k);
    EndToEnd.ActivationNeedsSignal(p.loop, t, st.staleMs, m);
    var latest := S.LatestOf(p.deliveries).value;
    S.LatestWasDelivered(p.deliveries);
    DeliveredWerePublished(e, events[..k], st);
    PublishedStems(e, events[..k], st);
    assert WasPublished(e, events[..k], st, latest.message);
    j :| PublishedAt(e, events[..k], st, j, latest.message);
    PublishedAtLater(e, events, st, k, j, latest.message);
    Rounding.MillisExceed(S.LatestOf(p.deliveries).value.at, events[k].now, st.staleMs);
  }

  /** Every activation rests on evidence of its own. Over every run of arrivals, publications,
      deliveries, ticks and policy reloads, also when it lifts a freeze: the tick that issues it
      saw a signal delivered last and not stale, published at an earlier event j, on which the
      policy in use chose the manifest; and at j the window behind the signal held enough
      observations, none degraded, and confident on average up to the rounding. */
  lemma EveryActivationIsGrounded(e: L.Engine, events: seq<Event>, st: Settings, k: nat, m: P.ManifestId)
    requires ActivatesAt(e, events, st, k, m)
    ensures exists j: nat :: Grounds(e, events, st, k, j, m)
  {
    var j := ActivationSawPublished(e, events, st, k, m);
    EndToEnd.ActivationRestsOnEvidence(Run(e, events[..k], st).loop, TickAfter(e, events, st, k), st.staleMs, m,
                                       LogAt(e, events, st, j), st.window, events[j].readings);
    assert Grounds(e, events, st, k, j, m);
  }

  /** If the activation goes through a rule with a positive threshold on a demographic bin, the
      window at the publication also supports the share. */
  lemma EveryTargetingIsGrounded(e: L.Engine, events: seq<Event>, st: Settings, k: nat, m: P.ManifestId, b: P.Bin, threshold: real)
    requires ActivatesAt(e, events, st, k, m)
    requires EndToEnd.ChoosesByBin(Run(e, events[..k], st).loop, TickAfter(e, events, st, k), b, threshold)
    ensures exists j: nat :: Grounds(e, events, st, k, j, m) && SharesAt(e, events, st, j, b, threshold)
  {
    var l, t := Run(e, events[..k], st).loop, TickAfter(e, events, st, k);
    var j := ActivationSawPublished(e, events, st, k, m);
    var log, r := LogAt(e, events, st, j), events[j].readings;
    EndToEnd.ActivationRestsOnEvidence(l, t, st.staleMs, m, log, st.window, r);
    EndToEnd.TargetingRestsOnShares(l, t, st.staleMs, m, log, st.window, r, b, threshold);
    assert Grounds(e, events, st, k, j, m) && SharesAt(e, events, st, j, b, threshold);
  }

  ghost predicate SharesAt(e: L.Engine, events: seq<Event>, st: Settings, j: nat, b: P.Bin, threshold: real) {
    && j < |events| && events[j].Publishes?
    && EndToEnd.ShareEvidence(W.InWindow(LogAt(e, events, st, j), st.window, events[j].readings.demographics),
                              st.window, b, threshold)
  }

  lemma IssuedByEvent(p: Pipeline, event: Event, st: Settings)
    ensures var issued := Next(p, event, st).loop.issued;
            || issued == p.loop.issued
            || (&& event.Ticks? && issued == p.loop.issued + [issued[|p.loop.issued|]]
                && (issued[|p.loop.issued|].ActivateIssued? ==>
                      EndToEnd.TickActivates(p.loop, L.TickOn(S.LatestOf(p.deliveries), event.now, event.hour, event.pick),
                                             st.staleMs, issued[|p.loop.issued|].manifestId)))
  {
    if event.Ticks? {
      L.StepIssues(p.loop, L.Ticking(L.TickOn(S.LatestOf(p.deliveries), event.now, event.hour, event.pick)), st.staleMs);
    }
  }

  /** Each activation in the stream was issued by a tick of its own: the i-th command by one
      before which i commands had been issued. */
  lemma {:induction false} EveryActivationHasItsTick(e: L.Engine, events: seq<Event>, st: Settings, i: nat)
    requires i < |Run(e, events, st).loop.issued| && Run(e, events, st).loop.issued[i].ActivateIssued?
    ensures exists k: nat :: IssuedAt(e, events, st, i, k)
  {
    var n := |events| - 1;
    var p := Run(e, events[..n], st);
    IssuedByEvent(p, events[n], st);
    if i < |p.loop.issued| {
      EveryActivationHasItsTick(e, events[..n], st, i);
      var k: nat :| IssuedAt(e, events[..n], st, i, k);
      assert events[..n][..k] == events[..k];
      assert IssuedAt(e, events, st, i, k);
    } else {
      assert IssuedAt(e, events, st, i, n);
    }
  }

  ghost predicate IssuedAt(e: L.Engine, events: seq<Event>, st: Settings, i: nat, k: nat) {
    && i < |Run(e, events, st).loop.issued| && Run(e, events, st).loop.issued[i].ActivateIssued?
    && ActivatesAt(e, events, st, k, Run(e, events, st).loop.issued[i].manifestId)
    && |Run(e, events[..k], st).loop.issued| == i
  }

  /** Hence each activation in the stream rests on evidence of its own, repeated ones included. */
  lemma WholeStreamIsGrounded(e: L.Engine, events: seq<Event>, st: Settings, i: nat)
    requires i < |Run(e, events, st).loop.issued| && Run(e, events, st).loop.issued[i].ActivateIssued?
    ensures exists k: nat, j: nat ::
              && IssuedAt(e, events, st, i, k)
              && Grounds(e, events, st, k, j, Run(e, events, st).loop.issued[i].manifestId)
  {
    EveryActivationHasItsTick(e, events, st, i);
    var k: nat :| IssuedAt(e, events, st, i, k);
    EveryActivationIsGrounded(e, events, st, k, Run(e, events, st).loop.issued[i].manifestId);
  }

  /** Conversely: over every run, a tick on a signal that is stale by the clock, degraded or asks
      for it leaves the player frozen; and one on a fresh signal that is neither leaves it
      unfrozen if the policy makes a choice, with that manifest current. */
  lemma EveryTickByTheClock(e: L.Engine, events: seq<Event>, st: Settings, k: nat)
    requires k < |events| && events[k].Ticks? && st.staleMs >= 0
    ensures var p := Run(e, events[..k], st);
            Run(e, events[..k + 1], st).loop
            == match S.LatestOf(p.deliveries)
               case None => p.loop
               case Some(d) =>
                 L.LoopDue(p.loop, L.FreezeDue(d, events[k].now, st.staleMs),
                           P.Evaluate(p.loop.engine.rules, d.message.signal, events[k].hour, events[k].pick))
  {
    var p := Run(e, events[..k], st);
    assert events[..k + 1][..k] == events[..k];
    L.TickByTheClock(p.loop, S.LatestOf(p.deliveries), events[k].now, events[k].hour, events[k].pick, st.staleMs);
  }

  // ---------- privacy, from the camera to the commands ----------

  /** The events differ at most in the demographic values of an arriving observation. */
  ghost predicate EventsAlike(a: Event, b: Event) {
    match (a, b)
    case (Arrives(x), Arrives(y)) =>
      Privacy.SameButValues(W.Stored(x.observation, x.stamp), W.Stored(y.observation, y.stamp))
    case _ => a == b
  }

  ghost predicate RunsAlike(events: seq<Event>, others: seq<Event>) {
    |events| == |others| && forall i :: 0 <= i < |events| ==> EventsAlike(events[i], others[i])
  }

  /** Demographics are suppressed or absent in the window of every publication. */
  ghost predicate AlwaysWithheld(e: L.Engine, events: seq<Event>, st: Settings) {
    forall j :: 0 <= j < |events| && events[j].Publishes? ==>
      !W.Shown(W.InWindow(LogAt(e, events, st, j), st.window, events[j].readings.demographics), st.window)
  }

  ghost predicate ArrivalsAlike(a: seq<S.Arrival>, b: seq<S.Arrival>) {
    |a| == |b| && forall i :: 0 <= i < |a| ==> EventsAlike(Arrives(a[i]), Arrives(b[i]))
  }

  lemma ArrivalsAlikeIds(a: seq<S.Arrival>, b: seq<S.Arrival>)
    requires ArrivalsAlike(a, b)
    ensures S.IdsOf(a) == S.IdsOf(b)
  {
    forall i | 0 <= i < |a|
      ensures a[i].observation.messageId == b[i].observation.messageId
    {
      assert EventsAlike(Arrives(a[i]), Arrives(b[i]));
      assert a[i].observation.messageId == a[i].observation.(demographics := None).messageId;
      assert b[i].observation.messageId == b[i].observation.(demographics := None).messageId;
    }
  }

  lemma {:induction false} IngestAlike(a: seq<S.Arrival>, b: seq<S.Arrival>)
    requires ArrivalsAlike(a, b)
    ensures Privacy.LogsAlike(S.Ingest(a), S.Ingest(b))
  {
    if a != [] {
      var n := |a| - 1;
      IngestAlike(a[..n], b[..n]);
      ArrivalsAlikeIds(a, b);
      ArrivalsAlikeIds(a[..n], b[..n]);
      assert S.IdsOf(a)[n] == S.IdsOf(b)[n];
      assert EventsAlike(Arrives(a[n]), Arrives(b[n]));
    }
  }

  /** The states differ at most in demographic values of what has arrived. */
  ghost predicate StatesAlike(p: Pipeline, q: Pipeline) {
    p.(arrivals := []) == q.(arrivals := []) && ArrivalsAlike(p.arrivals, q.arrivals)
  }

  lemma StepAlike(p: Pipeline, q: Pipeline, a: Event, b: Event, st: Settings)
    requires StatesAlike(p, q) && EventsAlike(a, b)
    requires a.Publishes? ==>
               !W.Shown(W.InWindow(S.Ingest(p.arrivals), st.window, a.readings.demographics), st.window)
    ensures StatesAlike(Next(p, a, st), Next(q, b, st))
  {
    assert p.published == p.(arrivals := []).published == q.(arrivals := []).published == q.published;
    assert p.deliveries == p.(arrivals := []).deliveries == q.(arrivals := []).deliveries == q.deliveries;
    assert p.loop == p.(arrivals := []).loop == q.(arrivals := []).loop == q.loop;
    if a.Publishes? {
      IngestAlike(p.arrivals, q.arrivals);
      Privacy.WithheldValuesLeaveNoTrace(S.Ingest(p.arrivals), S.Ingest(q.arrivals), st.window, a.readings);
    }
  }

  /** Two whole runs whose observations differ in demographic values only, withheld at every
      publication of one of them, publish the same signals and issue the same commands. */
  lemma {:induction false} WithheldValuesChangeNoCommand(e: L.Engine, events: seq<Event>, others: seq<Event>, st: Settings)
    requires RunsAlike(events, others) && AlwaysWithheld(e, events, st)
    ensures StatesAlike(Run(e, events, st), Run(e, others, st))
    ensures Run(e, events, st).loop.issued == Run(e, others, st).loop.issued
  {
    if events != [] {
      var n := |events| - 1;
      WithheldBefore(e, events, st);
      WithheldValuesChangeNoCommand(e, events[..n], others[..n], st);
      assert EventsAlike(events[n], others[n]);
      StepAlike(Run(e, events[..n], st), Run(e, others[..n], st), events[n], others[n], st);
    }
  }

  lemma WithheldBefore(e: L.Engine, events: seq<Event>, st: Settings)
    requires events != [] && AlwaysWithheld(e, events, st)
    ensures AlwaysWithheld(e, events[..|events| - 1], st)
    ensures var last := events[|events| - 1];
            last.Publishes? ==>
              !W.Shown(W.InWindow(S.Ingest(Run(e, events[..|events| - 1], st).arrivals), st.window, last.readings.demographics),
                       st.window)
  {
    var before := events[..|events| - 1];
    forall j | 0 <= j < |before| && before[j].Publishes?
      ensures !W.Shown(W.InWindow(LogAt(e, before, st, j), st.window, before[j].readings.demographics), st.window)
    {
      assert before[..j] == events[..j];
      assert LogAt(e, before, st, j) == LogAt(e, events, st, j);
      assert before[j] == events[j];
    }
    if events[|events| - 1].Publishes? {
      assert !W.Shown(W.InWindow(LogAt(e, events, st, |events| - 1), st.window, events[|events| - 1].readings.demographics), st.window);
    }
  }
}
