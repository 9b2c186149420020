/**
  The statistics page of the admin dashboard: the mean submission score, the
  share of submissions in each score bucket, the mean test time limit and its
  hours/minutes rendering, the summary record the page keeps in its state, and
  the row arrays of the spreadsheet export.

  Numbers are exact reals. `toFixed(2)` is not computed: `Fixed2(x, suffix)`
  stands for the string `x.toFixed(2) + suffix`.
*/
module Dashboard {
  import opened Wrappers
  import opened Text
  import opened Seqs

  datatype Submission = Submission(id: Option<string>, score: real, createdAt: Option<string>)

  datatype Test = Test(id: Option<string>, timeLimit: Option<int>, subject: Option<string>)

  /** A string the page shows: a literal, or a number formatted to two decimals followed by a suffix. */
  datatype Shown = Str(s: string) | Fixed2(x: real, suffix: string)

  /** A value held in the summary or written to a spreadsheet cell: a JavaScript number or a string. */
  datatype Value = Num(n: real) | Text(shown: Shown)

  function S(s: string): Value
  {
    Text(Str(s))
  }

  /** `${shown}${t}`. */
  function Suffixed(shown: Shown, t: string): Shown
  {
    match shown
    case Str(s) => Str(s + t)
    case Fixed2(x, suffix) => Fixed2(x, suffix + t)
  }

  /** `xs || []` and `!xs || xs.length === 0` on an optional array argument. */
  function OrEmpty<T>(xs: Option<seq<T>>): seq<T>
  {
    xs.GetOr([])
  }

  // ---------------------------------------------------------------- average score

  function TotalScore(subs: seq<Submission>): real
    decreases |subs|
  {
    if subs == [] then 0.0 else TotalScore(subs[..|subs| - 1]) + subs[|subs| - 1].score
  }

  function Mean(subs: seq<Submission>): real
    requires subs != []
  {
    TotalScore(subs) / |subs| as real
  }

  /**
    `calculateAverageScore`: the number 0 for an absent or empty list, otherwise
    the mean score formatted to two decimals.
  */
  function AverageScore(subs: Option<seq<Submission>>): (r: Value)
    ensures OrEmpty(subs) == [] <==> r == Num(0.0)
    ensures OrEmpty(subs) != [] ==> r.Text? && r.shown.Fixed2? && r.shown.suffix == ""
    ensures OrEmpty(subs) != [] ==> r.shown.x * |OrEmpty(subs)| as real == TotalScore(OrEmpty(subs))
  {
    var s := OrEmpty(subs);
    if s == [] then Num(0.0) else Text(Fixed2(Mean(s), ""))
  }

  /** The loop of `calculateAverageScore`, accumulating into `totalScore`. */
  method CalculateAverageScore(subs: Option<seq<Submission>>) returns (r: Value)
    ensures r == AverageScore(subs)
  {
    if subs.None? || subs.value == [] {
      return Num(0.0);
    }
    var s := subs.value;
    var totalScore := 0.0;
    var i := 0;
    while i < |s|
      invariant 0 <= i <= |s|
      invariant totalScore == TotalScore(s[..i])
    {
      assert s[..i + 1][..i] == s[..i];
      totalScore := totalScore + s[i].score;
      i := i + 1;
    }
    assert s[..i] == s;
    r := Text(Fixed2(totalScore / |s| as real, ""));
  }

  function MinScore(subs: seq<Submission>): (m: real)
    requires subs != []
    ensures forall i :: 0 <= i < |subs| ==> m <= subs[i].score
    ensures exists i :: 0 <= i < |subs| && subs[i].score == m
    decreases |subs|
  {
    if |subs| == 1 then subs[0].score
    else
      var m := MinScore(subs[..|subs| - 1]);
      var last := subs[|subs| - 1].score;
      if last < m then last else m
  }

  function MaxScore(subs: seq<Submission>): (m: real)
    requires subs != []
    ensures forall i :: 0 <= i < |subs| ==> subs[i].score <= m
    ensures exists i :: 0 <= i < |subs| && subs[i].score == m
    decreases |subs|
  {
    if |subs| == 1 then subs[0].score
    else
      var m := MaxScore(subs[..|subs| - 1]);
      var last := subs[|subs| - 1].score;
      if last > m then last else m
  }

  lemma {:induction false} TotalScoreBounds(subs: seq<Submission>, lo: real, hi: real)
    requires forall i :: 0 <= i < |subs| ==> lo <= subs[i].score <= hi
    ensures lo * |subs| as real <= TotalScore(subs) <= hi * |subs| as real
    decreases |subs|
  {
    if subs != [] {
      TotalScoreBounds(subs[..|subs| - 1], lo, hi);
    }
  }

  /** The mean of a non-empty list lies between its lowest and its highest score. */
  lemma MeanBetweenMinAndMax(subs: seq<Submission>)
    requires subs != []
    ensures MinScore(subs) <= Mean(subs) <= MaxScore(subs)
  {
    var n, lo, hi, t := |subs| as real, MinScore(subs), MaxScore(subs), TotalScore(subs);
    assert lo <= t / n <= hi by {
      TotalScoreBounds(subs, lo, hi);
      DivideBounds(lo, t, hi, n);
    }
    assert Mean(subs) == t / n;
  }

  lemma DivideBounds(lo: real, t: real, hi: real, n: real)
    requires n > 0.0 && lo * n <= t <= hi * n
    ensures lo <= t / n <= hi
  {
    var q := t / n;
    assert q * n == t;
  }

  // ---------------------------------------------------------------- score buckets

  function InRange(minScore: real, maxScore: real): Submission -> bool
  {
    (sub: Submission) => minScore <= sub.score <= maxScore
  }

  /** `submissionsData.filter(...)` of `getPointsPercentage`: both ends of the range included. */
  function InRangeCount(minScore: real, maxScore: real, subs: seq<Submission>): (n: nat)
    ensures n <= |subs|
    ensures n == Count(subs, InRange(minScore, maxScore))
  {
    FilterLength(subs, InRange(minScore, maxScore));
    |Filter(subs, InRange(minScore, maxScore))|
  }

  /**
    `getPointsPercentage`: the string "0.00" for an absent or empty list,
    otherwise 100 times the share of submissions whose score is in the closed
    range, formatted to two decimals. The share is between 0 and 100.
  */
  function PointsPercentage(minScore: real, maxScore: real, subs: Option<seq<Submission>>): (r: Shown)
    ensures OrEmpty(subs) == [] ==> r == Str("0.00")
    ensures OrEmpty(subs) != [] ==> r.Fixed2? && r.suffix == "" && 0.0 <= r.x <= 100.0
    ensures OrEmpty(subs) != [] ==>
              r.x * |OrEmpty(subs)| as real == 100.0 * InRangeCount(minScore, maxScore, OrEmpty(subs)) as real
  {
    var s := OrEmpty(subs);
    if s == [] then Str("0.00")
    else
      var count := InRangeCount(minScore, maxScore, s);
      var percentage := count as real / |s| as real * 100.0;
      ShareBounds(count as real, |s| as real);
      Fixed2(percentage, "")
  }

  lemma ShareBounds(count: real, n: real)
    requires 0.0 <= count <= n && n > 0.0
    ensures 0.0 <= count / n * 100.0 <= 100.0
    ensures count / n * 100.0 * n == 100.0 * count
  {
    var q := count / n;
    assert q * n == count;
    assert q <= 1.0;
  }

  /** Widening the range never lowers the percentage. */
  lemma PointsPercentageMonotone(lo: real, hi: real, lo': real, hi': real, subs: seq<Submission>)
    requires subs != []
    requires lo' <= lo && hi <= hi'
    ensures PointsPercentage(lo, hi, Some(subs)).x <= PointsPercentage(lo', hi', Some(subs)).x
  {
    FilterMonotone(subs, InRange(lo, hi), InRange(lo', hi'));
    var n := |subs| as real;
    var c, c' := InRangeCount(lo, hi, subs) as real, InRangeCount(lo', hi', subs) as real;
    DivideMonotone(c, c', n);
  }

  lemma DivideMonotone(a: real, b: real, n: real)
    requires n > 0.0 && a <= b
    ensures a / n * 100.0 <= b / n * 100.0
  {
    var p, q := a / n, b / n;
    assert p * n == a && q * n == b;
  }

  /** The five fixed buckets of the score chart, with their labels. */
  const BucketBounds: seq<(string, real, real)> :=
    [("0-2", 0.0, 2.0), ("2-4", 2.0, 4.0), ("4-6", 4.0, 6.0), ("6-8", 6.0, 8.0), ("8-10", 8.0, 10.0)]

  datatype ScoreBucket = ScoreBucket(range: string, percent: Shown)

  function ScoreDistribution(subs: seq<Submission>): (r: seq<ScoreBucket>)
    ensures |r| == 5
    ensures forall k :: 0 <= k < 5 ==>
              r[k] == ScoreBucket(BucketBounds[k].0, PointsPercentage(BucketBounds[k].1, BucketBounds[k].2, Some(subs)))
  {
    seq(5, k requires 0 <= k < 5 =>
      ScoreBucket(BucketBounds[k].0, PointsPercentage(BucketBounds[k].1, BucketBounds[k].2, Some(subs))))
  }

  /** How many of the five buckets contain score `x`. */
  function BucketsHit(x: real): nat
  {
    (if 0.0 <= x <= 2.0 then 1 else 0) + (if 2.0 <= x <= 4.0 then 1 else 0) + (if 4.0 <= x <= 6.0 then 1 else 0)
    + (if 6.0 <= x <= 8.0 then 1 else 0) + (if 8.0 <= x <= 10.0 then 1 else 0)
  }

  function TotalBucketsHit(subs: seq<Submission>): nat
    decreases |subs|
  {
    if subs == [] then 0 else TotalBucketsHit(subs[..|subs| - 1]) + BucketsHit(subs[|subs| - 1].score)
  }

  function BucketCountSum(subs: seq<Submission>): nat
  {
    InRangeCount(0.0, 2.0, subs) + InRangeCount(2.0, 4.0, subs) + InRangeCount(4.0, 6.0, subs)
    + InRangeCount(6.0, 8.0, subs) + InRangeCount(8.0, 10.0, subs)
  }

  /** Summed over the buckets, each submission is counted once per bucket that contains its score. */
  lemma {:induction false} BucketCountSumIsHits(subs: seq<Submission>)
    ensures BucketCountSum(subs) == TotalBucketsHit(subs)
    decreases |subs|
  {
    if subs != [] {
      BucketCountSumIsHits(subs[..|subs| - 1]);
    }
  }

  predicate OnInnerBoundary(x: real)
  {
    x == 2.0 || x == 4.0 || x == 6.0 || x == 8.0
  }

  lemma {:induction false} TotalBucketsHitLower(subs: seq<Submission>)
    requires forall i :: 0 <= i < |subs| ==> 0.0 <= subs[i].score <= 10.0
    ensures TotalBucketsHit(subs) >= |subs|
    ensures (exists i :: 0 <= i < |subs| && OnInnerBoundary(subs[i].score)) ==> TotalBucketsHit(subs) > |subs|
    decreases |subs|
  {
    if subs != [] {
      var init := subs[..|subs| - 1];
      TotalBucketsHitLower(init);
      if exists i :: 0 <= i < |subs| && OnInnerBoundary(subs[i].score) {
        var i :| 0 <= i < |subs| && OnInnerBoundary(subs[i].score);
        if i < |init| {
          assert OnInnerBoundary(init[i].score);
        }
      }
    }
  }

  /** The five buckets, written out. */
  lemma DistributionPercents(subs: seq<Submission>)
    ensures var d := ScoreDistribution(subs);
            && d[0].percent == PointsPercentage(0.0, 2.0, Some(subs))
            && d[1].percent == PointsPercentage(2.0, 4.0, Some(subs))
            && d[2].percent == PointsPercentage(4.0, 6.0, Some(subs))
            && d[3].percent == PointsPercentage(6.0, 8.0, Some(subs))
            && d[4].percent == PointsPercentage(8.0, 10.0, Some(subs))
  {
    var d := ScoreDistribution(subs);
    assert BucketBounds[0] == ("0-2", 0.0, 2.0) && BucketBounds[1] == ("2-4", 2.0, 4.0);
    assert BucketBounds[2] == ("4-6", 4.0, 6.0) && BucketBounds[3] == ("6-8", 6.0, 8.0);
    assert BucketBounds[4] == ("8-10", 8.0, 10.0);
  }

  /** Over a non-empty list the percentage is the in-range count over the length, times 100. */
  lemma PercentageValue(minScore: real, maxScore: real, subs: seq<Submission>)
    requires subs != []
    ensures PointsPercentage(minScore, maxScore, Some(subs)).x
            == InRangeCount(minScore, maxScore, subs) as real / |subs| as real * 100.0
  {
  }

  /**
    The buckets are closed at both ends: with every score in [0, 10], a score
    of exactly 2, 4, 6 or 8 is counted in two adjacent buckets, and the five
    percentages then add up to more than 100.
  */
  lemma BoundaryScoresOverfillBuckets(subs: seq<Submission>)
    requires subs != []
    requires forall i :: 0 <= i < |subs| ==> 0.0 <= subs[i].score <= 10.0
    requires exists i :: 0 <= i < |subs| && OnInnerBoundary(subs[i].score)
    ensures var d := ScoreDistribution(subs);
            d[0].percent.x + d[1].percent.x + d[2].percent.x + d[3].percent.x + d[4].percent.x > 100.0
  {
    var d := ScoreDistribution(subs);
    var n := |subs| as real;
    BucketCountSumIsHits(subs);
    TotalBucketsHitLower(subs);
    var c0, c1, c2 := InRangeCount(0.0, 2.0, subs) as real, InRangeCount(2.0, 4.0, subs) as real, InRangeCount(4.0, 6.0, subs) as real;
    var c3, c4 := InRangeCount(6.0, 8.0, subs) as real, InRangeCount(8.0, 10.0, subs) as real;
    PercentageValue(0.0, 2.0, subs);
    PercentageValue(2.0, 4.0, subs);
    PercentageValue(4.0, 6.0, subs);
    PercentageValue(6.0, 8.0, subs);
    PercentageValue(8.0, 10.0, subs);
    DistributionPercents(subs);
    SharesAddUp(c0, c1, c2, c3, c4, n);
  }

  lemma SharesAddUp(c0: real, c1: real, c2: real, c3: real, c4: real, n: real)
    requires n > 0.0
    ensures c0 / n * 100.0 + c1 / n * 100.0 + c2 / n * 100.0 + c3 / n * 100.0 + c4 / n * 100.0
            == (c0 + c1 + c2 + c3 + c4) / n * 100.0
    ensures c0 + c1 + c2 + c3 + c4 > n ==>
              c0 / n * 100.0 + c1 / n * 100.0 + c2 / n * 100.0 + c3 / n * 100.0 + c4 / n * 100.0 > 100.0
  {
    var q := (c0 + c1 + c2 + c3 + c4) / n;
    assert c0 / n + c1 / n + c2 / n + c3 / n + c4 / n == q;
    if c0 + c1 + c2 + c3 + c4 > n {
      assert q * n > n;
      assert q > 1.0;
    }
  }

  // ---------------------------------------------------------------- average test time

  /** `test.timeLimit || 0`. */
  function TimeLimitOrZero(t: Test): int
  {
    t.timeLimit.GetOr(0)
  }

  function TotalTime(tests: seq<Test>): int
    decreases |tests|
  {
    if tests == [] then 0 else TotalTime(tests[..|tests| - 1]) + TimeLimitOrZero(tests[|tests| - 1])
  }

  /** `Math.round`: the nearest integer, halves rounded up. */
  function Round(x: real): (r: int)
    ensures r as real - 0.5 <= x < r as real + 0.5
  {
    (x + 0.5).Floor
  }

  /** JavaScript `%` on numbers: the remainder of the quotient truncated toward zero. */
  function Remainder(a: real, b: real): real
    requires b != 0.0
  {
    var q := a / b;
    var t := if q >= 0.0 then q.Floor else -((-q).Floor);
    a - b * t as real
  }

  /** The formatting half of `getAverageTimeOfAllTests`. */
  function AverageTimeText(averageTime: real): (r: string)
    ensures |r| > 1
    ensures r[|r| - 1] == 'm' <==> averageTime >= 60.0
    ensures averageTime < 60.0 ==> |r| > 8 && r[|r| - 8..] == " minutes"
  {
    if averageTime >= 60.0 then
      assert averageTime / 60.0 >= 1.0;
      var hours := (averageTime / 60.0).Floor;
      var minutes := Round(Remainder(averageTime, 60.0));
      if hours > 0 then IntToString(hours) + "h " + IntToString(minutes) + "m"
      else IntToString(minutes) + " minutes"
    else
      IntToString(Round(averageTime)) + " minutes"
  }

  /** `getAverageTimeOfAllTests`: "0 minutes" for an absent or empty list, otherwise the mean time limit rendered. */
  function AverageTestTime(tests: Option<seq<Test>>): (r: string)
    ensures OrEmpty(tests) == [] ==> r == "0 minutes"
    ensures |r| > 1 && (r[|r| - 1] == 'm' <==> OrEmpty(tests) != [] && TotalTime(OrEmpty(tests)) >= 60 * |OrEmpty(tests)|)
  {
    var t := OrEmpty(tests);
    if t == [] then "0 minutes"
    else
      var n := |t| as real;
      var mean := TotalTime(t) as real / n;
      assert mean >= 60.0 <==> TotalTime(t) >= 60 * |t| by {
        assert mean * n == TotalTime(t) as real;
      }
      AverageTimeText(mean)
  }

  /** Tests that all count the same limit add up to that limit once per test. */
  lemma {:induction false} TotalTimeOfEqualLimits(tests: seq<Test>, limit: int)
    requires forall i :: 0 <= i < |tests| ==> TimeLimitOrZero(tests[i]) == limit
    ensures TotalTime(tests) == |tests| * limit
    decreases |tests|
  {
    if tests != [] {
      TotalTimeOfEqualLimits(tests[..|tests| - 1], limit);
      assert (|tests| - 1) * limit + limit == |tests| * limit;
    }
  }

  /** When every test counts the same limit, the average time is the text of that limit. */
  lemma AverageTestTimeOfEqualLimits(tests: seq<Test>, limit: int)
    requires tests != []
    requires forall i :: 0 <= i < |tests| ==> TimeLimitOrZero(tests[i]) == limit
    ensures AverageTestTime(Some(tests)) == AverageTimeText(limit as real)
  {
    TotalTimeOfEqualLimits(tests, limit);
    var n := |tests| as real;
    assert (|tests| * limit) as real == n * limit as real;
    assert n * limit as real / n == limit as real;
  }

  /** The loop of `getAverageTimeOfAllTests`, accumulating into `totalTime`. */
  method AverageTimeOfAllTests(tests: Option<seq<Test>>) returns (r: string)
    ensures r == AverageTestTime(tests)
  {
    if tests.None? || tests.value == [] {
      return "0 minutes";
    }
    var t := tests.value;
    var totalTime := 0;
    var i := 0;
    while i < |t|
      invariant 0 <= i <= |t|
      invariant totalTime == TotalTime(t[..i])
    {
      assert t[..i + 1][..i] == t[..i];
      totalTime := totalTime + TimeLimitOrZero(t[i]);
      i := i + 1;
    }
    assert t[..i] == t;
    r := AverageTimeText(totalTime as real / |t| as real);
  }

  /**
    From 60 minutes on, the text is "{h}h {m}m" with at least one hour, so the
    "{m} minutes" alternative of that branch is never taken; the minutes are
    the rounded remainder, between 0 and 60 inclusive.
  */
  lemma AverageTimeHoursForm(averageTime: real)
    requires averageTime >= 60.0
    ensures var h := (averageTime / 60.0).Floor;
            var m := Round(averageTime - 60.0 * h as real);
            h >= 1 && 0 <= m <= 60 &&
            AverageTimeText(averageTime) == NatToString(h) + "h " + NatToString(m) + "m"
  {
    var h := (averageTime / 60.0).Floor;
    assert averageTime / 60.0 >= 1.0;
    assert h >= 1;
    assert h as real <= averageTime / 60.0 < h as real + 1.0;
    assert 0.0 <= averageTime - 60.0 * h as real < 60.0;
  }

  /** Below 60 minutes the text is the rounded mean followed by " minutes". */
  lemma AverageTimeMinutesForm(averageTime: real)
    requires averageTime < 60.0
    ensures Round(averageTime) <= 60
    ensures averageTime >= -0.5 ==>
              0 <= Round(averageTime) && AverageTimeText(averageTime) == NatToString(Round(averageTime)) + " minutes"
    ensures averageTime < -0.5 ==>
              Round(averageTime) < 0 && AverageTimeText(averageTime) == "-" + NatToString(-Round(averageTime)) + " minutes"
  {
  }

  /** The rounded remainder can reach 60: a mean of 119.5 minutes reads "1h 60m". */
  lemma AverageTimeCanShowSixtyMinutes()
    ensures AverageTestTime(Some(TwoTests(Some(119), Some(120)))) == "1h 60m"
  {
    MeanOfTwo(Some(119), Some(120), 119.5);
    assert AverageTimeText(119.5) == "1h 60m" by {
      assert (119.5 / 60.0).Floor == 1;
      assert Remainder(119.5, 60.0) == 59.5;
      assert Round(59.5) == 60;
      SixtyText();
    }
  }

  /** Below an hour the rounding can also reach 60: a mean of 59.5 minutes reads "60 minutes". */
  lemma AverageTimeCanShowSixtyBelowAnHour()
    ensures AverageTestTime(Some(TwoTests(Some(59), Some(60)))) == "60 minutes"
  {
    MeanOfTwo(Some(59), Some(60), 59.5);
    assert AverageTimeText(59.5) == "60 minutes" by {
      assert Round(59.5) == 60;
      SixtyText();
    }
  }

  lemma SixtyText()
    ensures NatToString(60) == "60"
  {
    assert NatToString(6) == "6";
  }

  /** Two tests with the given time limits, for the worked examples. */
  function TwoTests(a: Option<int>, b: Option<int>): seq<Test>
  {
    [Test(None, a, None), Test(None, b, None)]
  }

  lemma TotalTimeOfTwo(a: Option<int>, b: Option<int>)
    ensures TotalTime(TwoTests(a, b)) == a.GetOr(0) + b.GetOr(0)
  {
    var t := TwoTests(a, b);
    assert t[..1] == [t[0]] && t[..1][..0] == [];
    assert TotalTime(t[..1]) == TimeLimitOrZero(t[0]);
    assert TotalTime(t) == TotalTime(t[..1]) + TimeLimitOrZero(t[1]);
  }

  /**
    Any non-empty list of tests reads as the text of its mean limit: the
    value that, times the number of tests, gives the summed `timeLimit || 0`.
  */
  lemma MeanOfAll(tests: seq<Test>, mean: real)
    requires tests != []
    requires mean * |tests| as real == TotalTime(tests) as real
    ensures AverageTestTime(Some(tests)) == AverageTimeText(mean)
  {
    MeanIsQuotient(tests, mean);
    AverageTestTimeOfQuotient(tests);
  }

  lemma MeanIsQuotient(tests: seq<Test>, mean: real)
    requires tests != []
    requires mean * |tests| as real == TotalTime(tests) as real
    ensures TotalTime(tests) as real / |tests| as real == mean
  {
    QuotientOfProduct(mean, |tests| as real, TotalTime(tests) as real);
  }

  lemma AverageTestTimeOfQuotient(tests: seq<Test>)
    requires tests != []
    ensures AverageTestTime(Some(tests)) == AverageTimeText(TotalTime(tests) as real / |tests| as real)
  {
    assert OrEmpty(Some(tests)) == tests;
  }

  lemma QuotientOfProduct(q: real, n: real, t: real)
    requires n > 0.0 && q * n == t
    ensures t / n == q
  {
  }

  /** Two tests whose limits average `mean` read as the text of `mean`. */
  lemma MeanOfTwo(a: Option<int>, b: Option<int>, mean: real)
    requires (a.GetOr(0) + b.GetOr(0)) as real / 2.0 == mean
    ensures AverageTestTime(Some(TwoTests(a, b))) == AverageTimeText(mean)
  {
    var t := TwoTests(a, b);
    TotalTimeOfTwo(a, b);
    assert |t| as real == 2.0;
    MeanOfAll(t, mean);
  }

  /** Worked cases: [30, 90] and [45, 75] average 60 and read "1h 0m". */
  lemma AverageTestTimeOneHourExamples()
    ensures AverageTestTime(Some(TwoTests(Some(30), Some(90)))) == "1h 0m"
    ensures AverageTestTime(Some(TwoTests(Some(45), Some(75)))) == "1h 0m"
  {
    MeanOfTwo(Some(30), Some(90), 60.0);
    MeanOfTwo(Some(45), Some(75), 60.0);
    assert AverageTimeText(60.0) == "1h 0m" by {
      assert (60.0 / 60.0).Floor == 1;
      assert Remainder(60.0, 60.0) == 0.0;
      assert Round(0.0) == 0;
    }
  }

  /** Worked cases: [10, 20] averages 15, as does [missing, 30]; no test at all reads "0 minutes". */
  lemma AverageTestTimeMinuteExamples()
    ensures AverageTestTime(Some(TwoTests(Some(10), Some(20)))) == "15 minutes"
    ensures AverageTestTime(Some(TwoTests(None, Some(30)))) == "15 minutes"
    ensures AverageTestTime(None) == "0 minutes" && AverageTestTime(Some([])) == "0 minutes"
  {
    MeanOfTwo(Some(10), Some(20), 15.0);
    MeanOfTwo(None, Some(30), 15.0);
    assert AverageTimeText(15.0) == "15 minutes" by {
      assert Round(15.0) == 15;
      assert NatToString(15) == "15" by { assert NatToString(1) == "1"; }
    }
  }

  // ---------------------------------------------------------------- summary record

  /** The result of one GET request: a failure (thrown by axios), or a body whose `metadata` may be absent. */
  datatype Response<T> = Failed | Received(metadata: Option<seq<T>>)

  datatype Overview = Overview(
    totalTests: nat,
    totalStudents: nat,
    totalTeachers: nat,
    avgScore: Value,
    avgTestTime: string)

  datatype DashboardData = DashboardData(overview: Overview, scoreDistribution: seq<ScoreBucket>)

  /** `metadata?.length || 0`. */
  function LengthOrZero<T>(metadata: Option<seq<T>>): nat
  {
    if metadata.Some? then |metadata.value| else 0
  }

  /** The zeroed record set when any request fails. */
  const FallbackData: DashboardData :=
    DashboardData(Overview(0, 0, 0, Num(0.0), "0 minutes"), [])

  predicate AnyFailed<S, U>(students: Response<S>, teachers: Response<U>, exams: Response<Test>,
                            subs: Response<Submission>)
  {
    students.Failed? || teachers.Failed? || exams.Failed? || subs.Failed?
  }

  /**
    The record `fetchDashboardData` stores: on any failed request, the fixed
    zeroed record; otherwise the counts, the two averages and the five buckets
    over `metadata || []`.
  */
  function DashboardFor<S, U>(students: Response<S>, teachers: Response<U>, exams: Response<Test>,
                              subs: Response<Submission>): (d: DashboardData)
    ensures AnyFailed(students, teachers, exams, subs) ==> d == FallbackData
    ensures !AnyFailed(students, teachers, exams, subs) ==>
              && d.overview.totalTests == |OrEmpty(exams.metadata)|
              && d.overview.totalStudents == (if students.metadata.Some? then |students.metadata.value| else 0)
              && d.overview.totalTeachers == (if teachers.metadata.Some? then |teachers.metadata.value| else 0)
              && d.overview.avgScore == AverageScore(Some(OrEmpty(subs.metadata)))
              && d.overview.avgTestTime == AverageTestTime(Some(OrEmpty(exams.metadata)))
              && d.scoreDistribution == ScoreDistribution(OrEmpty(subs.metadata))
  {
    if AnyFailed(students, teachers, exams, subs) then FallbackData
    else
      var submissionsData := OrEmpty(subs.metadata);
      var testsData := OrEmpty(exams.metadata);
      DashboardData(
        Overview(|testsData|, LengthOrZero(students.metadata), LengthOrZero(teachers.metadata),
                 AverageScore(Some(submissionsData)), AverageTestTime(Some(testsData))),
        ScoreDistribution(submissionsData))
  }

  /** Two fetches that both end in some failure leave the same record, whatever the other requests returned. */
  lemma FailureIgnoresOtherResponses<S, U>(
    students: Response<S>, teachers: Response<U>, exams: Response<Test>, subs: Response<Submission>,
    students': Response<S>, teachers': Response<U>, exams': Response<Test>, subs': Response<Submission>)
    requires AnyFailed(students, teachers, exams, subs) && AnyFailed(students', teachers', exams', subs')
    ensures DashboardFor(students, teachers, exams, subs) == DashboardFor(students', teachers', exams', subs')
    ensures DashboardFor(students, teachers, exams, subs).overview.totalTests == 0
    ensures DashboardFor(students, teachers, exams, subs).scoreDistribution == []
  {
  }

  /** Worked case: scores 6, 8 and 10 average 8, and two of the three lie in [6, 8]. */
  lemma SummaryExample()
    ensures var subs := [Submission(None, 6.0, None), Submission(None, 8.0, None), Submission(None, 10.0, None)];
            AverageScore(Some(subs)) == Text(Fixed2(8.0, ""))
            && PointsPercentage(6.0, 8.0, Some(subs)) == Fixed2(200.0 / 3.0, "")
  {
    var subs := [Submission(None, 6.0, None), Submission(None, 8.0, None), Submission(None, 10.0, None)];
    assert subs[..1] == [subs[0]] && subs[..2] == [subs[0], subs[1]];
    assert subs[..2][..1] == subs[..1] && subs[..1][..0] == [];
    assert TotalScore(subs[..1]) == 6.0;
    assert TotalScore(subs[..2]) == 14.0;
    assert TotalScore(subs) == 24.0;
    var p := InRange(6.0, 8.0);
    assert Filter(subs[..1], p) == [subs[0]];
    assert Filter(subs[..2], p) == [subs[0], subs[1]];
    assert InRangeCount(6.0, 8.0, subs) == 2;
  }

  // ---------------------------------------------------------------- export rows

  type Row = seq<Value>
  type Sheet = seq<Row>

  /** The four sheets whose rows come from the page's data. */
  datatype Workbook = Workbook(overview: Sheet, scoreDistribution: Sheet, submissions: Sheet, tests: Sheet)

  function OverviewSheet(o: Overview, submissionCount: nat): (r: Sheet)
    ensures |r| == 7 && forall k :: 0 <= k < 7 ==> |r[k]| == 2
    ensures r[0] == [S("Metric"), S("Value")]
    ensures r[1] == [S("Total Tests"), Num(o.totalTests as real)]
    ensures r[2] == [S("Total Students"), Num(o.totalStudents as real)]
    ensures r[3] == [S("Total Teachers"), Num(o.totalTeachers as real)]
    ensures r[4] == [S("Average Score"), o.avgScore]
    ensures r[5] == [S("Average Test Time"), S(o.avgTestTime)]
    ensures r[6] == [S("Total Submissions"), Num(submissionCount as real)]
  {
    [ [S("Metric"), S("Value")],
      [S("Total Tests"), Num(o.totalTests as real)],
      [S("Total Students"), Num(o.totalStudents as real)],
      [S("Total Teachers"), Num(o.totalTeachers as real)],
      [S("Average Score"), o.avgScore],
      [S("Average Test Time"), S(o.avgTestTime)],
      [S("Total Submissions"), Num(submissionCount as real)] ]
  }

  function ScoreSheet(buckets: seq<ScoreBucket>): (r: Sheet)
    ensures |r| == |buckets| + 1 && r[0] == [S("Score Range"), S("Percentage")]
    ensures forall i :: 0 <= i < |buckets| ==>
              r[i + 1] == [S(buckets[i].range), Text(Suffixed(buckets[i].percent, "%"))]
  {
    [[S("Score Range"), S("Percentage")]]
    + seq(|buckets|, i requires 0 <= i < |buckets| => [S(buckets[i].range), Text(Suffixed(buckets[i].percent, "%"))])
  }

  /** `sub.id || `SUB-${index + 1}``. */
  function SubmissionId(sub: Submission, index: nat): string
  {
    OrElse(sub.id, "SUB-" + NatToString(index + 1))
  }

  function SubmissionSheet(subs: seq<Submission>, today: string): (r: Sheet)
    ensures |r| == |subs| + 1 && r[0] == [S("Submission ID"), S("Score"), S("Date")]
    ensures forall i :: 0 <= i < |subs| ==>
              r[i + 1] == [S(SubmissionId(subs[i], i)), Num(subs[i].score), S(OrElse(subs[i].createdAt, today))]
  {
    [[S("Submission ID"), S("Score"), S("Date")]]
    + seq(|subs|, i requires 0 <= i < |subs| =>
        [S(SubmissionId(subs[i], i)), Num(subs[i].score), S(OrElse(subs[i].createdAt, today))])
  }

  /** `test.id || `TEST-${index + 1}``. */
  function TestId(t: Test, index: nat): string
  {
    OrElse(t.id, "TEST-" + NatToString(index + 1))
  }

  function TestSheet(tests: seq<Test>): (r: Sheet)
    ensures |r| == |tests| + 1 && r[0] == [S("Test ID"), S("Time Limit (minutes)"), S("Subject")]
    ensures forall i :: 0 <= i < |tests| ==>
              r[i + 1] == [S(TestId(tests[i], i)), Num(TimeLimitOrZero(tests[i]) as real), S(OrElse(tests[i].subject, "N/A"))]
  {
    [[S("Test ID"), S("Time Limit (minutes)"), S("Subject")]]
    + seq(|tests|, i requires 0 <= i < |tests| =>
        [S(TestId(tests[i], i)), Num(TimeLimitOrZero(tests[i]) as real), S(OrElse(tests[i].subject, "N/A"))])
  }

  /** Two submissions without an id get different generated ids. */
  lemma GeneratedSubmissionIdsDistinct(a: Submission, i: nat, b: Submission, j: nat)
    requires !Truthy(a.id) && !Truthy(b.id) && i != j
    ensures SubmissionId(a, i) != SubmissionId(b, j)
  {
    if SubmissionId(a, i) == SubmissionId(b, j) {
      var p, q := NatToString(i + 1), NatToString(j + 1);
      assert ("SUB-" + p)[4..] == p && ("SUB-" + q)[4..] == q;
      NatToStringInjective(i + 1, j + 1);
    }
  }

  /** Two tests without an id get different generated ids. */
  lemma GeneratedTestIdsDistinct(a: Test, i: nat, b: Test, j: nat)
    requires !Truthy(a.id) && !Truthy(b.id) && i != j
    ensures TestId(a, i) != TestId(b, j)
  {
    if TestId(a, i) == TestId(b, j) {
      var p, q := NatToString(i + 1), NatToString(j + 1);
      assert ("TEST-" + p)[5..] == p && ("TEST-" + q)[5..] == q;
      NatToStringInjective(i + 1, j + 1);
    }
  }

  // ---------------------------------------------------------------- page state

  /** The state of the dashboard page: its summary record and the two collections it last loaded. */
  class DashboardPage {
    var dashboardData: Option<DashboardData>
    var loading: bool
    var submissions: seq<Submission>
    var tests: seq<Test>

    constructor ()
      ensures dashboardData == None && loading && submissions == [] && tests == []
    {
      dashboardData := None;
      loading := true;
      submissions := [];
      tests := [];
    }

    /**
      `fetchDashboardData` with the four responses as inputs. The collections
      are stored only when every request succeeded; the record is the summary,
      or the zeroed record on any failure.
    */
    method FetchDashboardData<S, U>(students: Response<S>, teachers: Response<U>, exams: Response<Test>,
                                    subs: Response<Submission>)
      modifies this
      ensures dashboardData == Some(DashboardFor(students, teachers, exams, subs))
      ensures !loading
      ensures AnyFailed(students, teachers, exams, subs) ==> submissions == old(submissions) && tests == old(tests)
      ensures !AnyFailed(students, teachers, exams, subs) ==>
                submissions == OrEmpty(subs.metadata) && tests == OrEmpty(exams.metadata)
    {
      if AnyFailed(students, teachers, exams, subs) {
        loading := false;
        dashboardData := Some(FallbackData);
        return;
      }
      var submissionsData := OrEmpty(subs.metadata);
      var testsData := OrEmpty(exams.metadata);
      submissions := submissionsData;
      tests := testsData;
      var averageScore := CalculateAverageScore(Some(submissionsData));
      var averageTestTime := AverageTimeOfAllTests(Some(testsData));
      dashboardData := Some(DashboardData(
        Overview(|testsData|, LengthOrZero(students.metadata), LengthOrZero(teachers.metadata),
                 averageScore, averageTestTime),
        ScoreDistribution(submissionsData)));
      loading := false;
    }

    /**
      The row arrays of `exportToExcel`: nothing without a summary; otherwise
      one header row and one row per record on each sheet. `today` stands for
      `new Date().toLocaleDateString()`.
    */
    method ExportToExcel(today: string) returns (book: Option<Workbook>)
      ensures dashboardData.None? <==> book.None?
      ensures book.Some? ==>
                && book.value.overview == OverviewSheet(dashboardData.value.overview, |submissions|)
                && book.value.scoreDistribution == ScoreSheet(dashboardData.value.scoreDistribution)
                && |book.value.submissions| == |submissions| + 1
                && book.value.submissions == SubmissionSheet(submissions, today)
                && |book.value.tests| == |tests| + 1
                && book.value.tests == TestSheet(tests)
    {
      if dashboardData.None? {
        return None;
      }
      var data := dashboardData.value;
      book := Some(Workbook(
        OverviewSheet(data.overview, |submissions|),
        ScoreSheet(data.scoreDistribution),
        SubmissionSheet(submissions, today),
        TestSheet(tests)));
    }
  }
}
