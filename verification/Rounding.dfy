/**
 Means, rounding and elapsed time, on exact numbers: rounding half to even, to an integer and to four
 decimals, and the bounds that survive both.
 */
module Rounding {

  function RoundHalfEven(x: real): int {
    var below := x.Floor;
    var excess := x - below as real;
    if excess < 0.5 || (excess == 0.5 && below % 2 == 0) then below else below + 1
  }

  function RoundTo4(x: real): real {
    RoundHalfEven(x * 10000.0) as real / 10000.0
  }

  lemma RoundIsNear(x: real)
    ensures -0.5 <= RoundHalfEven(x) as real - x <= 0.5
  {
  }

  lemma RoundBetween(x: real, lo: int, hi: int)
    requires lo as real <= x <= hi as real
    ensures lo <= RoundHalfEven(x) <= hi
  {
    RoundIsNear(x);
  }

  /** Rounding to four decimals moves a number by at most half of 0.0001 and keeps shares shares. */
  lemma RoundTo4IsNear(x: real)
    ensures -0.00005 <= RoundTo4(x) - x <= 0.00005
    ensures 0.0 <= x <= 1.0 ==> 0.0 <= RoundTo4(x) <= 1.0
  {
    RoundIsNear(x * 10000.0);
    if 0.0 <= x <= 1.0 {
      RoundBetween(x * 10000.0, 0, 10000);
    }
  }

  /** Whole milliseconds from one time to another, cut off towards zero. */
  function MillisBetween(since: real, now: real): int {
    var ms := (now - since) * 1000.0;
    if ms >= 0.0 then ms.Floor else -((-ms).Floor)
  }

  /** It is the number of milliseconds that have passed in full. */
  lemma WholeMillis(since: real, now: real)
    requires since <= now
    ensures 0 <= MillisBetween(since, now)
    ensures MillisBetween(since, now) as real <= (now - since) * 1000.0 < (MillisBetween(since, now) + 1) as real
  {
  }

  /** More than a limit have passed exactly if one more than the limit has passed in full. */
  lemma MillisExceed(since: real, now: real, limit: int)
    ensures MillisBetween(since, now) <= limit ==> (now - since) * 1000.0 < (limit + 1) as real
    ensures limit >= 0 ==> (MillisBetween(since, now) > limit <==> (now - since) * 1000.0 >= (limit + 1) as real)
  {
  }

  function Sum(xs: seq<real>): real {
    if xs == [] then 0.0 else Sum(xs[..|xs| - 1]) + xs[|xs| - 1]
  }

  function Mean(xs: seq<real>): real
    requires xs != []
  {
    Sum(xs) / |xs| as real
  }

  /** The sum of the values, from the front. */
  function Total(xs: seq<real>): real {
    if xs == [] then 0.0 else xs[0] + Total(xs[1..])
  }

  lemma {:induction false} SumIsTotal(xs: seq<real>)
    ensures Sum(xs) == Total(xs)
  {
    if |xs| == 1 {
      assert xs[..0] == [] && xs[1..] == [];
    } else if |xs| > 1 {
      var n := |xs| - 1;
      SumIsTotal(xs[..n]);
      SumIsTotal(xs[1..]);
      SumIsTotal(xs[1..][..n - 1]);
      assert xs[..n][1..] == xs[1..][..n - 1];
    }
  }

  /** A mean times the number of its values is their total. */
  lemma MeanIsTotal(xs: seq<real>)
    requires xs != []
    ensures Mean(xs) * |xs| as real == Total(xs)
  {
    SumIsTotal(xs);
  }

  ghost predicate AllBetween(xs: seq<real>, lo: real, hi: real) {
    forall i :: 0 <= i < |xs| ==> lo <= xs[i] <= hi
  }

  lemma {:induction false} SumBounds(xs: seq<real>, lo: real, hi: real)
    requires AllBetween(xs, lo, hi)
    ensures lo * |xs| as real <= Sum(xs) <= hi * |xs| as real
  {
    if xs != [] {
      SumBounds(xs[..|xs| - 1], lo, hi);
      var n := (|xs| - 1) as real;
      assert lo * (n + 1.0) == lo * n + lo && hi * (n + 1.0) == hi * n + hi;
    }
  }

  lemma QuotientBounds(total: real, n: real, lo: real, hi: real)
    requires n > 0.0 && lo * n <= total <= hi * n
    ensures lo <= total / n <= hi
  {
    var q := total / n;
    assert q * n == total;
  }

  /** A mean lies between the bounds of its values. */
  lemma MeanBounds(xs: seq<real>, lo: real, hi: real)
    requires xs != [] && AllBetween(xs, lo, hi)
    ensures lo <= Mean(xs) <= hi
  {
    SumBounds(xs, lo, hi);
    QuotientBounds(Sum(xs), |xs| as real, lo, hi);
  }
}
