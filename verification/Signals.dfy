/**
 Signals on their way from camera observations to the decision loop: the observation
 consumer that feeds the window, the publisher that builds a signal from it, and the
 signal consumer that keeps the latest one.
 */
module Signals {
  import opened Wrappers
  import opened Window
  import Policy
  import IdMemory

  /** A payload as it arrives: unparsable, rejected by the schema, or a message. */
  datatype Payload<T> = BadJson | SchemaViolation | Parsed(message: T)

  // ---------- observations in ----------

  /** A well-formed observation message as it arrives, repeated deliveries included. */
  datatype Arrival = Arrival(observation: Observation, stamp: real)

  function IdsOf(arrivals: seq<Arrival>): seq<IdMemory.Id> {
    seq(|arrivals|, i requires 0 <= i < |arrivals| => arrivals[i].observation.messageId)
  }

  function MessageIds(log: seq<Stored>): seq<IdMemory.Id> {
    seq(|log|, i requires 0 <= i < |log| => log[i].data.messageId)
  }

  /** What reaches the window of the arrivals: those whose id is not remembered. */
  function Ingest(arrivals: seq<Arrival>): seq<Stored> {
    if arrivals == [] then []
    else
      var before, last := arrivals[..|arrivals| - 1], arrivals[|arrivals| - 1];
      if last.observation.messageId in IdMemory.OfferAll(IdsOf(before)).memory then Ingest(before)
      else Ingest(before) + [Stored(last.observation, last.stamp)]
  }

  lemma IdsOfAppend(arrivals: seq<Arrival>, last: Arrival)
    ensures IdsOf(arrivals + [last]) == IdsOf(arrivals) + [last.observation.messageId]
    ensures IdMemory.OfferAll(IdsOf(arrivals + [last]))
         == IdMemory.Offer(IdMemory.OfferAll(IdsOf(arrivals)), last.observation.messageId)
  {
    var ids := IdsOf(arrivals + [last]);
    assert ids == IdsOf(arrivals) + [last.observation.messageId];
    assert ids[..|ids| - 1] == IdsOf(arrivals);
  }

  class ObservationConsumer {
    const window: ObservationWindow
    var seenIds: seq<IdMemory.Id>
    var totalReceived: nat
    var totalRejected: nat
    /** All well-formed messages so far, repetitions included. */
    ghost var arrivals: seq<Arrival>

    ghost predicate Valid()
      reads this, window
    {
      && window.Valid()
      && seenIds == IdMemory.OfferAll(IdsOf(arrivals)).memory
      && window.log == Ingest(arrivals)
      && totalReceived == |window.log|
    }

    constructor (window: ObservationWindow)
      requires window.Valid() && window.log == []
      ensures Valid() && this.window == window && arrivals == []
    {
      this.window := window;
      seenIds, totalReceived, totalRejected := [], 0, 0;
      arrivals := [];
    }

    method RecordId(id: IdMemory.Id)
      modifies this`seenIds
      ensures seenIds == IdMemory.Record(old(seenIds), id)
    {
      if id !in seenIds {
        seenIds := seenIds + [id];
      }
      if |seenIds| > IdMemory.MAX_SEEN_IDS {
        seenIds := seenIds[IdMemory.DROPPED..];
      }
    }

    method Process(raw: Payload<Observation>, now: real, stamp: real) returns (accepted: bool)
      requires Valid() && window.clock <= now <= stamp
      modifies this, window
      ensures Valid()
      ensures accepted <==> raw.Parsed? && raw.message.messageId !in old(seenIds)
      ensures window.log == old(window.log) + if accepted then [Stored(raw.message, stamp)] else []
      ensures arrivals == old(arrivals) + if raw.Parsed? then [Arrival(raw.message, stamp)] else []
      ensures totalRejected == old(totalRejected) + if raw.Parsed? then 0 else 1
    {
      if !raw.Parsed? {
        totalRejected := totalRejected + 1;
        return false;
      }
      var id := raw.message.messageId;
      IdsOfAppend(arrivals, Arrival(raw.message, stamp));
      arrivals := arrivals + [Arrival(raw.message, stamp)];
      assert arrivals[..|arrivals| - 1] == old(arrivals);
      if id in seenIds {
        return false;
      }
      RecordId(id);
      window.Add(raw.message, now, stamp);
      totalReceived := totalReceived + 1;
      return true;
    }
  }

  /** The arrivals without those whose id has arrived before. */
  function WithoutRepeats(arrivals: seq<Arrival>): seq<Arrival> {
    if arrivals == [] then []
    else
      var before, last := arrivals[..|arrivals| - 1], arrivals[|arrivals| - 1];
      if last.observation.messageId in IdsOf(before) then WithoutRepeats(before)
      else WithoutRepeats(before) + [last]
  }

  lemma {:induction false} IngestedIds(arrivals: seq<Arrival>)
    ensures MessageIds(Ingest(arrivals)) == IdMemory.OfferAll(IdsOf(arrivals)).accepted
  {
    if arrivals != [] {
      var before, last := arrivals[..|arrivals| - 1], arrivals[|arrivals| - 1];
      IngestedIds(before);
      assert arrivals == before + [last];
      IdsOfAppend(before, last);
    }
  }

  lemma {:induction false} FirstsOf(ids: seq<IdMemory.Id>)
    ensures forall id :: id in IdMemory.FirstOccurrences(ids) <==> id in ids
  {
    if ids != [] {
      FirstsOf(ids[..|ids| - 1]);
    }
  }

  /** An arrival whose id has not arrived before is ingested. */
  lemma NewArrivalIngested(arrivals: seq<Arrival>, last: Arrival)
    requires last.observation.messageId !in IdsOf(arrivals)
    ensures Ingest(arrivals + [last]) == Ingest(arrivals) + [Stored(last.observation, last.stamp)]
  {
    RememberedWereOffered(IdsOf(arrivals));
    assert (arrivals + [last])[..|arrivals|] == arrivals;
  }

  /** The arrivals without repeats carry the first occurrences of all ids. */
  lemma {:induction false} WithoutRepeatsIds(arrivals: seq<Arrival>)
    ensures IdsOf(WithoutRepeats(arrivals)) == IdMemory.FirstOccurrences(IdsOf(arrivals))
  {
    if arrivals != [] {
      var before, last := arrivals[..|arrivals| - 1], arrivals[|arrivals| - 1];
      WithoutRepeatsIds(before);
      FirstsOf(IdsOf(before));
      var ids := IdsOf(arrivals);
      assert ids[..|ids| - 1] == IdsOf(before);
      IdsOfAppend(WithoutRepeats(before), last);
    }
  }

  /** All of the arrivals without repeats are ingested. */
  lemma {:induction false} WithoutRepeatsIngested(arrivals: seq<Arrival>)
    ensures MessageIds(Ingest(WithoutRepeats(arrivals))) == IdsOf(WithoutRepeats(arrivals))
  {
    if arrivals != [] {
      var before, last := arrivals[..|arrivals| - 1], arrivals[|arrivals| - 1];
      WithoutRepeatsIngested(before);
      if last.observation.messageId !in IdsOf(before) {
        WithoutRepeatsIds(before);
        FirstsOf(IdsOf(before));
        var kept := WithoutRepeats(before);
        NewArrivalIngested(kept, last);
        IdsOfAppend(kept, last);
        assert MessageIds(Ingest(kept + [last])) == MessageIds(Ingest(kept)) + [last.observation.messageId];
      }
    }
  }

  lemma {:induction false} RememberedWereOffered(ids: seq<IdMemory.Id>)
    ensures forall id :: id in IdMemory.OfferAll(ids).memory ==> id in ids
  {
    if ids != [] {
      RememberedWereOffered(ids[..|ids| - 1]);
      IdMemory.RecordMembers(IdMemory.OfferAll(ids[..|ids| - 1]).memory, ids[|ids| - 1]);
    }
  }

  /** While every repetition comes in time, what is ingested is all the arrivals without repeats. */
  lemma {:induction false} TimelyRepeatsAreDropped(arrivals: seq<Arrival>)
    requires IdMemory.RepeatsArriveInTime(IdsOf(arrivals))
    ensures Ingest(arrivals) == Ingest(WithoutRepeats(arrivals))
  {
    if arrivals != [] {
      var before, last := arrivals[..|arrivals| - 1], arrivals[|arrivals| - 1];
      var ids, kept := IdsOf(arrivals), WithoutRepeats(before);
      assert ids[..|ids| - 1] == IdsOf(before);
      TimelyRepeatsAreDropped(before);
      IdMemory.ExactlyOnce(IdsOf(before));
      IdMemory.MemoryIsRecentHistory(IdsOf(before));
      FirstsOf(IdsOf(before));
      if last.observation.messageId !in IdsOf(before) {
        WithoutRepeatsIds(before);
        RememberedWereOffered(IdsOf(before));
        NewArrivalIngested(kept, last);
      }
    }
  }

  /** Redelivery leaves no trace in the window: it holds exactly what it would hold had every
      message arrived once only, contents and stamps included, if and only if every repetition
      comes while its id is remembered. */
  lemma RedeliveryLeavesNoTrace(arrivals: seq<Arrival>)
    ensures Ingest(arrivals) == Ingest(WithoutRepeats(arrivals)) <==> IdMemory.RepeatsArriveInTime(IdsOf(arrivals))
  {
    IngestedIds(arrivals);
    WithoutRepeatsIds(arrivals);
    WithoutRepeatsIngested(arrivals);
    IdMemory.ExactlyOnce(IdsOf(arrivals));
    if IdMemory.RepeatsArriveInTime(IdsOf(arrivals)) {
      TimelyRepeatsAreDropped(arrivals);
    }
  }

  // ---------- the signal ----------

  /** The clock readings taken, in this order, while one signal is built. */
  datatype Readings = Readings(state: real, age: real, ageDifference: real, degraded: real,
                               demographics: real, attention: real)

  predicate Ordered(r: Readings) {
    r.state <= r.age <= r.ageDifference <= r.degraded <= r.demographics <= r.attention
  }

  function OrZero(age: Option<int>): int {
    if age.Some? then age.value else 0
  }

  /** The signal built from everything observed so far, or None while the window is empty. */
  function SignalOf(log: seq<Stored>, c: Config, r: Readings): Option<Policy.Signal> {
    var state := StateOf(InWindow(log, c, r.state), c);
    if state == None then None
    else Some(Policy.Signal(
                state.value.count, state.value.confidence, state.value.stability,
                DemographicsOf(InWindow(log, c, r.demographics), c),
                AttentionOf(InWindow(log, c, r.attention)),
                OrZero(NewestAgeMs(InWindow(log, c, r.age), r.ageDifference)),
                AnyDegraded(InWindow(log, c, r.degraded))))
  }

  method BuildSignal(window: ObservationWindow, r: Readings) returns (signal: Option<Policy.Signal>)
    requires window.Valid() && window.clock <= r.state && Ordered(r)
    modifies window
    ensures window.Valid() && window.log == old(window.log)
    ensures signal == SignalOf(window.log, window.config, r)
  {
    var state := window.ComputeState(r.state);
    if state == None {
      return None;
    }
    var age := window.NewestObservationAgeMs(r.age, r.ageDifference);
    var degraded := window.AnyPipelineDegraded(r.degraded);
    var demographics := window.ComputeDemographics(r.demographics);
    var attention := window.ComputeAttention(r.attention);
    signal := Some(Policy.Signal(state.value.count, state.value.confidence, state.value.stability,
                                 demographics, attention, OrZero(age), degraded));
  }

  predicate Share(x: real) {
    0.0 <= x <= 1.0
  }

  /** The numeric ranges of the signal schema. */
  ghost predicate SchemaRanges(s: Policy.Signal) {
    && s.count >= 0 && Share(s.confidence) && s.signalAgeMs >= 0
    && (s.demographics.Some? ==>
          && (forall b :: b in s.demographics.value.bins ==> Share(s.demographics.value.bins[b]))
          && (s.demographics.value.dwellEstimateMs.Some? ==> s.demographics.value.dwellEstimateMs.value >= 0))
    && (s.attention.Some? && s.attention.value.engaged.Some? ==> Share(s.attention.value.engaged.value))
    && (s.attention.Some? && s.attention.value.ambient.Some? ==> Share(s.attention.value.ambient.value))
  }

  lemma {:induction false} EngagedInRange(obs: seq<Stored>)
    requires AllInRange(obs)
    ensures Rounding.AllBetween(EngagedValues(obs), 0.0, 1.0)
  {
    if obs != [] {
      assert obs[|obs| - 1] in obs;
      EngagedInRange(obs[..|obs| - 1]);
    }
  }

  lemma {:induction false} AmbientInRange(obs: seq<Stored>)
    requires AllInRange(obs)
    ensures Rounding.AllBetween(AmbientValues(obs), 0.0, 1.0)
  {
    if obs != [] {
      assert obs[|obs| - 1] in obs;
      AmbientInRange(obs[..|obs| - 1]);
    }
  }

  lemma RoundedMeanInRange(xs: seq<real>)
    requires Rounding.AllBetween(xs, 0.0, 1.0)
    ensures RoundedMean(xs).Some? ==> Share(RoundedMean(xs).value)
  {
    if xs != [] {
      Rounding.MeanBounds(xs, 0.0, 1.0);
      Rounding.RoundTo4IsNear(Rounding.Mean(xs));
    }
  }

  lemma AttentionInRange(obs: seq<Stored>)
    requires AllInRange(obs)
    ensures var a := AttentionOf(obs);
            && (a.Some? && a.value.engaged.Some? ==> Share(a.value.engaged.value))
            && (a.Some? && a.value.ambient.Some? ==> Share(a.value.ambient.value))
  {
    EngagedInRange(obs);
    AmbientInRange(obs);
    RoundedMeanInRange(EngagedValues(obs));
    RoundedMeanInRange(AmbientValues(obs));
  }

  lemma DemographicsInRange(obs: seq<Stored>, c: Config)
    requires AllInRange(obs)
    ensures var d := DemographicsOf(obs, c);
            d.Some? ==>
              && (forall b :: b in d.value.bins ==> Share(d.value.bins[b]))
              && (d.value.dwellEstimateMs.Some? ==> d.value.dwellEstimateMs.value >= 0)
  {
    var d := DemographicsOf(obs, c);
    if Shown(obs, c) {
      ShownDemographicsAreComplete(obs, c);
      assert obs[|obs| - 1] in obs;
      forall b | b in d.value.bins
        ensures Share(d.value.bins[b])
      {
        ShownDemographicsAreMeans(obs, c, b);
      }
    }
  }

  lemma InWindowOfLog(log: seq<Stored>, c: Config, now: real)
    requires AllInRange(log)
    ensures AllInRange(InWindow(log, c, now))
    ensures forall o :: o in InWindow(log, c, now) ==> o in log
  {
    Recency.RecentMembers(log, ReceivedAt, Cutoff(c, now));
  }

  /** From observations within their schema's ranges, the publisher only ever builds signals
      within theirs: its self-check against the signal schema cannot fail on a number. */
  lemma SignalsPassTheirSchema(log: seq<Stored>, c: Config, r: Readings)
    requires AllInRange(log) && Ordered(r) && (forall o :: o in log ==> o.receivedAt <= r.age)
    requires SignalOf(log, c, r).Some?
    ensures SchemaRanges(SignalOf(log, c, r).value)
  {
    var now := InWindow(log, c, r.state);
    InWindowOfLog(log, c, r.state);
    InWindowOfLog(log, c, r.age);
    InWindowOfLog(log, c, r.demographics);
    InWindowOfLog(log, c, r.attention);
    SmoothedConfidenceNear(now, c);
    CountNonnegative(now, c);
    DemographicsInRange(InWindow(log, c, r.demographics), c);
    AttentionInRange(InWindow(log, c, r.attention));
    var newest := InWindow(log, c, r.age);
    if newest != [] {
      assert newest[|newest| - 1] in newest;
    }
  }

  lemma CountNonnegative(obs: seq<Stored>, c: Config)
    requires obs != [] && AllInRange(obs)
    ensures StateOf(obs, c).value.count >= 0
  {
    forall i | 0 <= i < |obs|
      ensures Counts(obs)[i] >= 0.0
    {
      assert obs[i] in obs;
    }
    NonnegativeMean(Counts(obs));
    Rounding.RoundIsNear(Rounding.Mean(Counts(obs)));
  }

  lemma {:induction false} NonnegativeSum(xs: seq<real>)
    requires forall i :: 0 <= i < |xs| ==> xs[i] >= 0.0
    ensures Rounding.Sum(xs) >= 0.0
  {
    if xs != [] {
      NonnegativeSum(xs[..|xs| - 1]);
    }
  }

  lemma NonnegativeMean(xs: seq<real>)
    requires xs != [] && forall i :: 0 <= i < |xs| ==> xs[i] >= 0.0
    ensures Rounding.Mean(xs) >= 0.0
  {
    NonnegativeSum(xs);
  }

  // ---------- signals in ----------

  datatype SignalMessage = SignalMessage(messageId: IdMemory.Id, signal: Policy.Signal)

  /** A well-formed signal message as it arrives, repeated deliveries included. */
  datatype Delivery = Delivery(message: SignalMessage, at: real)

  function DeliveredIds(deliveries: seq<Delivery>): seq<IdMemory.Id> {
    seq(|deliveries|, i requires 0 <= i < |deliveries| => deliveries[i].message.messageId)
  }

  /** The last delivery whose id was not remembered. */
  function LatestOf(deliveries: seq<Delivery>): Option<Delivery> {
    if deliveries == [] then None
    else
      var before, last := deliveries[..|deliveries| - 1], deliveries[|deliveries| - 1];
      if last.message.messageId in IdMemory.OfferAll(DeliveredIds(before)).memory then LatestOf(before)
      else Some(last)
  }

  lemma {:induction false} LatestWasDelivered(deliveries: seq<Delivery>)
    requires LatestOf(deliveries).Some?
    ensures LatestOf(deliveries).value in deliveries
  {
    if LatestOf(deliveries) != Some(deliveries[|deliveries| - 1]) {
      LatestWasDelivered(deliveries[..|deliveries| - 1]);
    }
  }

  /** A delivery with an id not delivered before becomes the latest; one that repeats an id which
      is remembered changes nothing. */
  lemma LatestAfter(deliveries: seq<Delivery>, last: Delivery)
    ensures last.message.messageId !in DeliveredIds(deliveries) ==> LatestOf(deliveries + [last]) == Some(last)
    ensures IdMemory.RepeatsArriveInTime(DeliveredIds(deliveries + [last])) && last.message.messageId in DeliveredIds(deliveries)
        ==> LatestOf(deliveries + [last]) == LatestOf(deliveries)
  {
    var all, ids := deliveries + [last], DeliveredIds(deliveries + [last]);
    assert all[..|deliveries|] == deliveries && ids[..|ids| - 1] == DeliveredIds(deliveries);
    RememberedWereOffered(DeliveredIds(deliveries));
    if IdMemory.RepeatsArriveInTime(ids) {
      IdMemory.ExactlyOnce(DeliveredIds(deliveries));
      IdMemory.MemoryIsRecentHistory(DeliveredIds(deliveries));
      FirstsOf(DeliveredIds(deliveries));
    }
  }

  lemma DeliveredIdsAppend(deliveries: seq<Delivery>, last: Delivery)
    ensures IdMemory.OfferAll(DeliveredIds(deliveries + [last]))
         == IdMemory.Offer(IdMemory.OfferAll(DeliveredIds(deliveries)), last.message.messageId)
  {
    var ids := DeliveredIds(deliveries + [last]);
    assert ids[..|ids| - 1] == DeliveredIds(deliveries);
  }

  class SignalConsumer {
    var latest: Option<SignalMessage>
    var latestReceivedAt: Option<real>
    var seenIds: seq<IdMemory.Id>
    var totalReceived: nat
    var totalRejected: nat
    /** All well-formed messages so far, repetitions included. */
    ghost var deliveries: seq<Delivery>

    ghost predicate Valid()
      reads this
    {
      && seenIds == IdMemory.OfferAll(DeliveredIds(deliveries)).memory
      && totalReceived == |IdMemory.OfferAll(DeliveredIds(deliveries)).accepted|
      && match LatestOf(deliveries)
         case None => latest == None && latestReceivedAt == None
         case Some(d) => latest == Some(d.message) && latestReceivedAt == Some(d.at)
    }

    constructor ()
      ensures Valid() && latest == None && deliveries == []
    {
      latest, latestReceivedAt := None, None;
      seenIds, totalReceived, totalRejected := [], 0, 0;
      deliveries := [];
    }

    method RecordId(id: IdMemory.Id)
      modifies this`seenIds
      ensures seenIds == IdMemory.Record(old(seenIds), id)
    {
      if id !in seenIds {
        seenIds := seenIds + [id];
      }
      if |seenIds| > IdMemory.MAX_SEEN_IDS {
        seenIds := seenIds[IdMemory.DROPPED..];
      }
    }

    method Process(raw: Payload<SignalMessage>, now: real) returns (accepted: bool)
      requires Valid()
      modifies this
      ensures Valid()
      ensures accepted <==> raw.Parsed? && raw.message.messageId !in old(seenIds)
      ensures accepted ==> latest == Some(raw.message) && latestReceivedAt == Some(now)
      ensures !accepted ==> latest == old(latest) && latestReceivedAt == old(latestReceivedAt)
      ensures deliveries == old(deliveries) + if raw.Parsed? then [Delivery(raw.message, now)] else []
      ensures totalRejected == old(totalRejected) + if raw.Parsed? then 0 else 1
    {
      if !raw.Parsed? {
        totalRejected := totalRejected + 1;
        return false;
      }
      var id := raw.message.messageId;
      DeliveredIdsAppend(deliveries, Delivery(raw.message, now));
      deliveries := deliveries + [Delivery(raw.message, now)];
      assert deliveries[..|deliveries| - 1] == old(deliveries);
      if id in seenIds {
        return false;
      }
      RecordId(id);
      latest, latestReceivedAt := Some(raw.message), Some(now);
      totalReceived := totalReceived + 1;
      return true;
    }

    /** Whole milliseconds since the latest signal arrived. */
    function SignalAgeMs(now: real): Option<int>
      reads this
    {
      if latestReceivedAt == None then None else Some(Rounding.MillisBetween(latestReceivedAt.value, now))
    }
  }
}
