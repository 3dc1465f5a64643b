/**
 Pruning a list by age. The observation window and the restart ladder both keep a
 list that is cut back to its recent part whenever it is touched; these lemmas say
 that cutting early never changes what a later cut returns.
 */
module Recency {

  /** The entries of the log stamped at or after the cutoff, in order. */
  function Recent<T>(log: seq<T>, at: T -> real, cutoff: real): seq<T> {
    if log == [] then []
    else
      var rest := Recent(log[..|log| - 1], at, cutoff);
      if at(log[|log| - 1]) >= cutoff then rest + [log[|log| - 1]] else rest
  }

  lemma RecentOfAppend<T>(log: seq<T>, entry: T, at: T -> real, cutoff: real)
    ensures Recent(log + [entry], at, cutoff)
         == Recent(log, at, cutoff) + if at(entry) >= cutoff then [entry] else []
  {
    assert (log + [entry])[..|log|] == log;
  }

  /** A later cut sees through an earlier one. */
  lemma {:induction false} RecentAfterRecent<T>(log: seq<T>, at: T -> real, early: real, late: real)
    requires early <= late
    ensures Recent(Recent(log, at, early), at, late) == Recent(log, at, late)
  {
    if log != [] {
      var before := log[..|log| - 1];
      RecentAfterRecent(before, at, early, late);
      if at(log[|log| - 1]) >= early {
        RecentOfAppend(Recent(before, at, early), log[|log| - 1], at, late);
      }
    }
  }

  lemma {:induction false} RecentMembers<T>(log: seq<T>, at: T -> real, cutoff: real)
    ensures forall x :: x in Recent(log, at, cutoff) <==> x in log && at(x) >= cutoff
  {
    if log != [] {
      RecentMembers(log[..|log| - 1], at, cutoff);
    }
  }
}
