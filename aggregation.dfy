/**
 * The aggregation behind the rating summary: the total, the average, the count
 * of this month's ratings, and the histogram of rounded scores 1 to 5.
 *
 * Ratings are exact rationals, so the two-decimal rounding of the average and
 * binary floating point are not modelled; the average is the exact mean.
 */
module Aggregation {
  import opened Outcomes
  import opened Ratings

  /** The histogram has one bucket per score 1 .. Buckets. */
  const Buckets: nat := 5

  /** The summary reported when there is nothing to summarize or summarizing failed. */
  const ZeroSummary := RatingSummary(0, 0.0, 0, [0, 0, 0, 0, 0])

  /** Rounding to the nearest integer with halves rounding up, as `Math.round` does. */
  function Round(x: real): (n: int)
    ensures n as real - 0.5 <= x < n as real + 0.5
  {
    (x + 0.5).Floor
  }

  /** The rounded score of a rating. */
  function Score(r: Rating): int
  {
    Round(r.rating)
  }

  predicate InRange(score: int)
  {
    1 <= score <= Buckets
  }

  /** Number of ratings whose rounded score is `k`. */
  function BucketCount(rs: seq<Rating>, k: int): nat
    decreases |rs|
  {
    if rs == [] then 0
    else BucketCount(rs[..|rs| - 1], k) + (if Score(rs[|rs| - 1]) == k then 1 else 0)
  }

  /** Number of ratings whose rounded score has no bucket. */
  function OutOfRangeCount(rs: seq<Rating>): nat
    decreases |rs|
  {
    if rs == [] then 0
    else OutOfRangeCount(rs[..|rs| - 1]) + (if InRange(Score(rs[|rs| - 1])) then 0 else 1)
  }

  /** The histogram: entry `k - 1` counts the ratings with rounded score `k`. */
  function Distribution(rs: seq<Rating>): (d: seq<nat>)
    ensures |d| == Buckets
    ensures forall k :: 1 <= k <= Buckets ==> d[k - 1] == multiset(Scores(rs))[k]
  {
    BucketIsMultiplicity(rs, 1);
    BucketIsMultiplicity(rs, 2);
    BucketIsMultiplicity(rs, 3);
    BucketIsMultiplicity(rs, 4);
    BucketIsMultiplicity(rs, 5);
    [BucketCount(rs, 1), BucketCount(rs, 2), BucketCount(rs, 3), BucketCount(rs, 4), BucketCount(rs, 5)]
  }

  function SumOf(d: seq<nat>): nat
  {
    if d == [] then 0 else d[0] + SumOf(d[1..])
  }

  /** Sum of the ratings, accumulated from the left. */
  function Sum(rs: seq<Rating>): real
    decreases |rs|
  {
    if rs == [] then 0.0 else Sum(rs[..|rs| - 1]) + rs[|rs| - 1].rating
  }

  /** The mean rating, 0 for no ratings. */
  function Average(rs: seq<Rating>): (a: real)
    ensures rs == [] ==> a == 0.0
  {
    if |rs| == 0 then 0.0 else Sum(rs) / (|rs| as real)
  }

  /** A rating falls in month `now` when its date parses to that local year and month. */
  predicate InMonth(r: Rating, now: CalendarMonth, parse: DateParser)
  {
    match parse(r.createdAt)
    case Some(d) => d.local == now
    case None => false
  }

  /** Number of ratings that fall in month `now`. */
  function Monthly(rs: seq<Rating>, now: CalendarMonth, parse: DateParser): (m: nat)
    ensures m <= |rs|
    decreases |rs|
  {
    if rs == [] then 0
    else Monthly(rs[..|rs| - 1], now, parse) + (if InMonth(rs[|rs| - 1], now, parse) then 1 else 0)
  }

  /** The summary of a list of ratings. */
  function Summarize(rs: seq<Rating>, now: CalendarMonth, parse: DateParser): (s: RatingSummary)
    ensures s.total == |rs| && |s.distribution| == Buckets && s.average == Average(rs)
    ensures s.monthly <= s.total && SumOf(s.distribution) <= s.total
    ensures rs == [] ==> s == ZeroSummary
  {
    MonthlyAtMostTotal(rs, now, parse);
    DistributionCoversTotal(rs);
    RatingSummary(|rs|, Average(rs), Monthly(rs, now, parse), Distribution(rs))
  }

  /** The histogram as the source builds it: five counters, all zero, and one
      pass over the ratings that increments the counter of each in-range
      rounded score. */
  method CountDistribution(rs: seq<Rating>) returns (distribution: seq<nat>)
    ensures distribution == Distribution(rs)
  {
    var counts := new nat[Buckets](_ => 0);
    for i := 0 to |rs|
      invariant forall k :: 0 <= k < Buckets ==> counts[k] == BucketCount(rs[..i], k + 1)
    {
      assert rs[..i + 1][..i] == rs[..i];
      var score := Score(rs[i]);
      if InRange(score) {
        counts[score - 1] := counts[score - 1] + 1;
      }
    }
    assert rs[..|rs|] == rs;
    distribution := counts[..];
  }

  /** The rounded scores of the ratings, in order. */
  function Scores(rs: seq<Rating>): seq<int>
  {
    seq(|rs|, i requires 0 <= i < |rs| => Score(rs[i]))
  }

  /** Each bucket holds exactly as many ratings as have that rounded score. */
  lemma {:induction false} BucketIsMultiplicity(rs: seq<Rating>, k: int)
    ensures BucketCount(rs, k) == multiset(Scores(rs))[k]
    decreases |rs|
  {
    if rs != [] {
      var init := rs[..|rs| - 1];
      BucketIsMultiplicity(init, k);
      assert Scores(rs) == Scores(init) + [Score(rs[|rs| - 1])];
    }
  }

  /** Every rating lands in exactly one bucket or in none: the buckets and the
      out-of-range ratings together account for all ratings. */
  lemma {:induction false} BucketsAccount(rs: seq<Rating>)
    ensures SumOf(Distribution(rs)) + OutOfRangeCount(rs) == |rs|
    decreases |rs|
  {
    BinnedUnfolds(rs);
    if rs != [] {
      var init := rs[..|rs| - 1];
      BucketsAccount(init);
      BinnedUnfolds(init);
    }
  }

  lemma BinnedUnfolds(rs: seq<Rating>)
    ensures SumOf(Distribution(rs)) ==
      BucketCount(rs, 1) + BucketCount(rs, 2) + BucketCount(rs, 3) + BucketCount(rs, 4) + BucketCount(rs, 5)
  {
    var d := Distribution(rs);
    assert SumOf(d[4..]) == d[4] by { assert d[4..][1..] == []; }
    assert SumOf(d[3..]) == d[3] + SumOf(d[4..]) by { assert d[3..][1..] == d[4..]; }
    assert SumOf(d[2..]) == d[2] + SumOf(d[3..]) by { assert d[2..][1..] == d[3..]; }
    assert SumOf(d[1..]) == d[1] + SumOf(d[2..]) by { assert d[1..][1..] == d[2..]; }
  }

  /** No rating is out of range exactly when every rounded score has a bucket. */
  lemma {:induction false} NoneOutOfRangeIff(rs: seq<Rating>)
    ensures OutOfRangeCount(rs) == 0 <==> forall i :: 0 <= i < |rs| ==> InRange(Score(rs[i]))
    decreases |rs|
  {
    if rs != [] {
      var init := rs[..|rs| - 1];
      NoneOutOfRangeIff(init);
      assert forall i :: 0 <= i < |init| ==> init[i] == rs[i];
    }
  }

  /** The buckets never hold more than the total, and hold all of it exactly
      when every rounded score lies in 1 .. 5. */
  lemma DistributionCoversTotal(rs: seq<Rating>)
    ensures SumOf(Distribution(rs)) <= |rs|
    ensures SumOf(Distribution(rs)) == |rs| <==> forall i :: 0 <= i < |rs| ==> InRange(Score(rs[i]))
  {
    BucketsAccount(rs);
    NoneOutOfRangeIff(rs);
  }

  /** The monthly count never exceeds the total, and equals it exactly when
      every rating falls in month `now`. */
  lemma {:induction false} MonthlyAtMostTotal(rs: seq<Rating>, now: CalendarMonth, parse: DateParser)
    ensures Monthly(rs, now, parse) <= |rs|
    ensures Monthly(rs, now, parse) == |rs| <==> forall i :: 0 <= i < |rs| ==> InMonth(rs[i], now, parse)
    decreases |rs|
  {
    if rs != [] {
      var init := rs[..|rs| - 1];
      MonthlyAtMostTotal(init, now, parse);
      assert forall i :: 0 <= i < |init| ==> init[i] == rs[i];
    }
  }

  /** The sum of ratings that all lie in [lo, hi] lies between `lo` and `hi` times their number. */
  lemma {:induction false} SumBounds(rs: seq<Rating>, lo: real, hi: real)
    requires forall i :: 0 <= i < |rs| ==> lo <= rs[i].rating <= hi
    ensures lo * (|rs| as real) <= Sum(rs) <= hi * (|rs| as real)
    decreases |rs|
  {
    if rs != [] {
      var init := rs[..|rs| - 1];
      assert forall i :: 0 <= i < |init| ==> init[i] == rs[i];
      SumBounds(init, lo, hi);
      assert Sum(rs) == Sum(init) + rs[|rs| - 1].rating;
      assert lo * (|rs| as real) == lo * (|init| as real) + lo;
      assert hi * (|rs| as real) == hi * (|init| as real) + hi;
    }
  }

  /** The average is the mean: times the number of ratings it gives their sum. */
  lemma AverageIsMean(rs: seq<Rating>)
    ensures Average(rs) * (|rs| as real) == Sum(rs)
  {
    if |rs| > 0 {
      var n := |rs| as real;
      assert Sum(rs) / n * n == Sum(rs);
    }
  }

  /** When every rating is a score from 1 to 5, so is a non-empty average. */
  lemma AverageWithinScores(rs: seq<Rating>)
    requires |rs| > 0
    requires forall i :: 0 <= i < |rs| ==> 1.0 <= rs[i].rating <= 5.0
    ensures 1.0 <= Average(rs) <= 5.0
  {
    SumBounds(rs, 1.0, 5.0);
    QuotientWithin(Sum(rs), |rs| as real, 1.0, 5.0);
  }

  lemma QuotientWithin(s: real, n: real, lo: real, hi: real)
    requires n > 0.0 && lo * n <= s <= hi * n
    ensures lo <= s / n <= hi
  {
    assert s / n - lo == (s - lo * n) / n;
    assert hi - s / n == (hi * n - s) / n;
  }

  /** The summary does not look at the derived timestamps. */
  lemma {:induction false} SummarizeIgnoresTimestamps(rs: seq<Rating>, rs': seq<Rating>, now: CalendarMonth, parse: DateParser)
    requires |rs'| == |rs|
    requires forall i :: 0 <= i < |rs| ==> rs'[i] == rs[i].(timestamp := rs'[i].timestamp)
    ensures Summarize(rs', now, parse) == Summarize(rs, now, parse)
    decreases |rs|
  {
    if rs != [] {
      var init, init' := rs[..|rs| - 1], rs'[..|rs| - 1];
      SummarizeIgnoresTimestamps(init, init', now, parse);
      var last, last' := rs[|rs| - 1], rs'[|rs| - 1];
      assert last'.rating == last.rating && last'.createdAt == last.createdAt;
      assert Sum(rs') == Sum(rs);
      assert Monthly(rs', now, parse) == Monthly(rs, now, parse);
      assert Distribution(rs') == Distribution(rs);
    }
  }
}
