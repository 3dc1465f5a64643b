/**
 The bounded memory of message ids that the player's command handler, the signal
 consumer and the observation consumer each keep to drop repeated deliveries.
 The memory is an insertion-ordered dict, modelled by the sequence of its keys.
 */
module IdMemory {

  type Id = string

  const MAX_SEEN_IDS: nat := 5000

  /** Half of the maximum, rounded down: how many ids one pruning drops. */
  const DROPPED: nat := 2500

  /** The dict after recording one id: the oldest half is dropped when it overflows. */
  function Record(memory: seq<Id>, id: Id): seq<Id> {
    var grown := if id in memory then memory else memory + [id];
    if |grown| > MAX_SEEN_IDS then grown[DROPPED..] else grown
  }

  /** A consumer's memory together with the full history of what it accepted. */
  datatype Consumer = Consumer(memory: seq<Id>, accepted: seq<Id>)

  function Offer(c: Consumer, id: Id): Consumer {
    if id in c.memory then c else Consumer(Record(c.memory, id), c.accepted + [id])
  }

  function OfferAll(offered: seq<Id>): Consumer {
    if offered == [] then Consumer([], [])
    else Offer(OfferAll(offered[..|offered| - 1]), offered[|offered| - 1])
  }

  /** How many ids are remembered once n ids have been accepted. */
  function Retained(n: nat): (k: nat)
    ensures k <= n && k <= MAX_SEEN_IDS && (k == n || k > DROPPED)
  {
    if n <= MAX_SEEN_IDS then n
    else DROPPED + 1 + (n - MAX_SEEN_IDS - 1) % 2500
  }

  function LastN(s: seq<Id>, n: nat): seq<Id>
    requires n <= |s|
  {
    s[|s| - n..]
  }

  ghost predicate NoRepeats(s: seq<Id>) {
    forall i, j :: 0 <= i < j < |s| ==> s[i] != s[j]
  }

  lemma RetainedStep(n: nat)
    ensures Retained(n + 1)
         == if Retained(n) < MAX_SEEN_IDS then Retained(n) + 1 else DROPPED + 1
  {
    var past := n - MAX_SEEN_IDS - 1;
    assert past == 2500 * (past / 2500) + past % 2500;
  }

  /** Recording a new id in the last k of a history keeps a most recent part of it. */
  lemma RecordKeepsRecent(accepted: seq<Id>, k: nat, id: Id)
    requires k <= |accepted| && k <= MAX_SEEN_IDS && id !in LastN(accepted, k)
    ensures var next := if k < MAX_SEEN_IDS then k + 1 else DROPPED + 1;
            Record(LastN(accepted, k), id) == LastN(accepted + [id], next)
  {
    assert LastN(accepted, k) + [id] == LastN(accepted + [id], k + 1);
  }

  lemma RecordMembers(memory: seq<Id>, id: Id)
    ensures forall x :: x in Record(memory, id) ==> x == id || x in memory
  {
  }

  lemma RecordNoRepeats(memory: seq<Id>, id: Id)
    requires NoRepeats(memory) && id !in memory
    ensures NoRepeats(Record(memory, id))
  {
  }

  /** The memory is the most recent part of the history, of the length that goes with it. */
  ghost predicate Recalls(c: Consumer) {
    c.memory == LastN(c.accepted, Retained(|c.accepted|)) && NoRepeats(c.memory)
  }

  lemma OfferRecalls(c: Consumer, id: Id)
    requires Recalls(c)
    ensures Recalls(Offer(c, id))
  {
    if id !in c.memory {
      RetainedStep(|c.accepted|);
      RecordKeepsRecent(c.accepted, Retained(|c.accepted|), id);
      RecordNoRepeats(c.memory, id);
    }
  }

  /** The pruned memory is at all times exactly the most recent part of the history. */
  lemma {:induction false} MemoryIsRecentHistory(offered: seq<Id>)
    ensures Recalls(OfferAll(offered))
  {
    if offered != [] {
      MemoryIsRecentHistory(offered[..|offered| - 1]);
      OfferRecalls(OfferAll(offered[..|offered| - 1]), offered[|offered| - 1]);
    }
  }

  /** At most 5000 ids are remembered, all of them up to that many, and at least 2501 after. */
  lemma MemoryBounds(offered: seq<Id>)
    ensures var c := OfferAll(offered);
            && |c.memory| <= 5000
            && (|c.accepted| <= 5000 ==> c.memory == c.accepted)
            && (|c.accepted| >= 2501 ==> |c.memory| >= 2501)
            && (|c.accepted| == 5001 ==> |c.memory| == 2501)
  {
    MemoryIsRecentHistory(offered);
  }

  /** An id is accepted exactly when it is not among the most recent accepted ones. */
  lemma AcceptedIff(offered: seq<Id>, id: Id)
    ensures var c := OfferAll(offered);
            |OfferAll(offered + [id]).accepted| == |c.accepted| + 1
            <==> id !in LastN(c.accepted, Retained(|c.accepted|))
  {
    assert (offered + [id])[..|offered|] == offered;
    MemoryIsRecentHistory(offered);
  }

  lemma RecentlyAcceptedIsRemembered(offered: seq<Id>, k: nat)
    requires var accepted := OfferAll(offered).accepted;
             |accepted| - Retained(|accepted|) <= k < |accepted|
    ensures OfferAll(offered).accepted[k] in OfferAll(offered).memory
  {
    var c := OfferAll(offered);
    var n := |c.accepted|;
    MemoryIsRecentHistory(offered);
    assert c.accepted[k] == LastN(c.accepted, Retained(n))[k - (n - Retained(n))];
  }

  /** Two acceptances of one id are separated by at least 2501 other acceptances. */
  lemma {:induction false} RepeatsAreFarApart(offered: seq<Id>, i: nat, j: nat)
    requires i < j < |OfferAll(offered).accepted|
    requires OfferAll(offered).accepted[i] == OfferAll(offered).accepted[j]
    ensures j - i > Retained(j)
    ensures j - i - 1 >= DROPPED + 1
  {
    var before := offered[..|offered| - 1];
    if j < |OfferAll(before).accepted| {
      RepeatsAreFarApart(before, i, j);
    } else if i >= j - Retained(j) {
      RecentlyAcceptedIsRemembered(before, i);
      assert false;
    }
  }

  /** The ids offered so far, each at its first occurrence only. */
  function FirstOccurrences(offered: seq<Id>): seq<Id> {
    if offered == [] then []
    else
      var firsts := FirstOccurrences(offered[..|offered| - 1]);
      var id := offered[|offered| - 1];
      if id in firsts then firsts else firsts + [id]
  }

  /** Every repetition arrives while its id is still remembered. */
  ghost predicate RepeatsArriveInTime(offered: seq<Id>) {
    offered != [] ==>
      var firsts := FirstOccurrences(offered[..|offered| - 1]);
      var id := offered[|offered| - 1];
      && RepeatsArriveInTime(offered[..|offered| - 1])
      && (id in firsts ==> id in LastN(firsts, Retained(|firsts|)))
  }

  lemma {:induction false} FirstOccurrencesNoRepeats(offered: seq<Id>)
    ensures NoRepeats(FirstOccurrences(offered))
  {
    if offered != [] {
      FirstOccurrencesNoRepeats(offered[..|offered| - 1]);
    }
  }

  /** An at-least-once delivery is turned into exactly-once acceptance, in order of first
      arrival, precisely when every repetition arrives while its id is remembered. */
  lemma {:induction false} ExactlyOnce(offered: seq<Id>)
    ensures OfferAll(offered).accepted == FirstOccurrences(offered)
       <==> RepeatsArriveInTime(offered)
  {
    if offered != [] {
      var before := offered[..|offered| - 1];
      var c := OfferAll(before);
      var id := offered[|offered| - 1];
      ExactlyOnce(before);
      MemoryIsRecentHistory(before);
      FirstOccurrencesNoRepeats(offered);
      if c.accepted != FirstOccurrences(before) {
        AcceptedCoversFirsts(before);
        RepeatStaysRepeated(before);
        assert OfferAll(offered).accepted[..|c.accepted|] == c.accepted;
      }
    }
  }

  lemma {:induction false} AcceptedCoversFirsts(offered: seq<Id>)
    ensures forall id :: id in OfferAll(offered).accepted <==> id in FirstOccurrences(offered)
  {
    if offered != [] {
      AcceptedCoversFirsts(offered[..|offered| - 1]);
      MemoryIsRecentHistory(offered[..|offered| - 1]);
    }
  }

  /** A history that departs from the first occurrences has accepted some id twice. */
  lemma {:induction false} RepeatStaysRepeated(offered: seq<Id>)
    requires OfferAll(offered).accepted != FirstOccurrences(offered)
    ensures !NoRepeats(OfferAll(offered).accepted)
  {
    var before := offered[..|offered| - 1];
    var c := OfferAll(before);
    if c.accepted != FirstOccurrences(before) {
      RepeatStaysRepeated(before);
      assert OfferAll(offered).accepted[..|c.accepted|] == c.accepted;
    } else {
      MemoryIsRecentHistory(before);
      var id := offered[|offered| - 1];
      var i :| 0 <= i < |c.accepted| && c.accepted[i] == id;
      var after := OfferAll(offered).accepted;
      assert after[i] == id && after[|c.accepted|] == id;
    }
  }

  /** With at most 5000 distinct ids, no repetition is ever accepted. */
  lemma {:induction false} FewIdsAlwaysExactlyOnce(offered: seq<Id>)
    requires |FirstOccurrences(offered)| <= MAX_SEEN_IDS
    ensures OfferAll(offered).accepted == FirstOccurrences(offered)
  {
    InTimeWhenFew(offered);
    ExactlyOnce(offered);
  }

  lemma {:induction false} InTimeWhenFew(offered: seq<Id>)
    requires |FirstOccurrences(offered)| <= MAX_SEEN_IDS
    ensures RepeatsArriveInTime(offered)
  {
    if offered != [] {
      InTimeWhenFew(offered[..|offered| - 1]);
    }
  }
}
