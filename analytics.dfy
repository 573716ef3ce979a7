/** The analytics of the store: the per-person insight (progress velocity,
    trend, completion rate, achievements, standing in the family,
    recommendations) and the family-wide statistics. They are computed from
    lists of records that the store hands over; nothing here changes the store.
    Numbers are exact reals: rounding and NaN of JavaScript numbers are not modelled. */
module Analytics {
  import opened Wrappers
  import opened Schema
  import opened Lists

  /** Velocity above this is "improving", below its negation "declining". */
  const TREND_THRESHOLD: real := 0.2

  /** How many of the newest metrics the velocity looks at. */
  const RECENT_WINDOW: nat := 10

  const FOCUS_ON_GOALS: string := "Focus on completing existing goals before adding new ones"
  const REVIEW_STRATEGY: string := "Recent metrics show declining trend - consider reviewing your strategy"
  const SET_MILESTONES: string := "Set some milestone markers to celebrate your progress"
  const TRACK_MORE: string := "Track more metrics across different categories for better insights"

  /** The four recommendations in the order in which they are tested. */
  const ALL_RECOMMENDATIONS: seq<string> := [FOCUS_ON_GOALS, REVIEW_STRATEGY, SET_MILESTONES, TRACK_MORE]

  // ---------------------------------------------------------------------------
  // Facts about division of reals, kept apart so that the solver sees them alone

  lemma QuotientBetween(s: real, n: real, lo: real, hi: real)
    requires n > 0.0 && n * lo <= s <= n * hi
    ensures lo <= s / n <= hi
  {
  }

  /** A sum of n ranks, each in -1..8, has its mean in -1..8. */
  lemma MeanOfRanksBetween(s: int, n: nat)
    requires n > 0 && -(n as int) <= s <= 8 * n
    ensures -1.0 <= s as real / n as real <= 8.0
  {
    var x, y := s as real, n as real;
    assert -y <= x <= 8.0 * y;
    QuotientBetween(x, y, -1.0, 8.0);
  }

  lemma FractionFacts(c: real, t: real)
    requires 0.0 <= c <= t && t > 0.0
    ensures 0.0 <= c / t * 100.0 <= 100.0
    ensures c / t * 100.0 == 100.0 <==> c == t
    ensures c / t * 100.0 == 0.0 <==> c == 0.0
  {
    QuotientBetween(c, t, 0.0, 1.0);
    var q := c / t;
    assert c == q * t;
    if q == 1.0 { assert c == t; }
    if q == 0.0 { assert c == 0.0; }
  }

  // ---------------------------------------------------------------------------
  // Progress levels

  /** `PROGRESS_LEVELS.indexOf(p.progressLevel)`; a level that was never set is
      `undefined` and has rank -1 like any unlisted string. */
  function Rank(p: Person): (r: int)
    ensures -1 <= r < |PROGRESS_LEVELS|
    ensures r == -1 <==> p.progressLevel.None? || p.progressLevel.value !in PROGRESS_LEVELS
    ensures 0 <= r ==> p.progressLevel == Some(PROGRESS_LEVELS[r])
  {
    match p.progressLevel
    case None => -1
    case Some(level) => IndexOf(PROGRESS_LEVELS, level)
  }

  /** The `reduce` that adds up the ranks of all people. */
  function SumRanks(people: seq<Person>): (s: int)
    ensures -|people| <= s <= 8 * |people|
  {
    if people == [] then 0 else Rank(people[0]) + SumRanks(people[1..])
  }

  /** The mean rank, dividing by `people.length || 1`: with nobody the sum is 0
      and so is the mean. */
  function MeanRank(people: seq<Person>): (m: real)
    ensures people == [] ==> m == 0.0
    ensures -1.0 <= m <= 8.0
  {
    if people == [] then 0.0
    else
      var n, s := |people|, SumRanks(people);
      MeanOfRanksBetween(s, n);
      s as real / n as real
  }

  /** `(rank - familyAverage) / PROGRESS_LEVELS.length * 100`: the person's
      standing as a signed percentage of the whole scale. */
  function ComparisonToFamily(person: Person, people: seq<Person>): (c: real)
    ensures -100.0 <= c <= 100.0
    ensures c == 0.0 <==> Rank(person) as real == MeanRank(people)
    ensures c > 0.0 <==> Rank(person) as real > MeanRank(people)
  {
    var difference := Rank(person) as real - MeanRank(people);
    ScaleToPercent(difference);
    (difference / |PROGRESS_LEVELS| as real) * 100.0
  }

  /** A rank difference lies within one whole scale, so as a share of the scale
      it lies within -100..100 percent, with its sign kept. */
  lemma ScaleToPercent(d: real)
    requires -9.0 <= d <= 9.0
    ensures var c := (d / |PROGRESS_LEVELS| as real) * 100.0;
      -100.0 <= c <= 100.0 && (c == 0.0 <==> d == 0.0) && (c > 0.0 <==> d > 0.0)
  {
    assert |PROGRESS_LEVELS| as real == 9.0;
  }

  // ---------------------------------------------------------------------------
  // Progress velocity and trend

  ghost predicate SortedByDateDesc(s: seq<ProgressMetric>)
  {
    forall i, j :: 0 <= i < j < |s| ==> s[i].date >= s[j].date
  }

  /** How many leading metrics of a newest-first list are at least as new as `m`:
      where a stable insertion puts `m`. */
  function InsertionPoint(sorted: seq<ProgressMetric>, m: ProgressMetric): (k: nat)
    requires SortedByDateDesc(sorted)
    ensures k <= |sorted|
    ensures forall i :: 0 <= i < k ==> sorted[i].date >= m.date
    ensures forall i :: k <= i < |sorted| ==> sorted[i].date < m.date
  {
    if sorted == [] || sorted[0].date < m.date then 0
    else 1 + InsertionPoint(sorted[1..], m)
  }

  function DatedAt(d: Timestamp): ProgressMetric -> bool
  {
    (x: ProgressMetric) => x.date == d
  }

  /** For every date, the metrics of that date come in the same order in `r`
      as in `ms`: what a stable sort by date keeps. */
  ghost predicate KeepsOrderOfTies(r: seq<ProgressMetric>, ms: seq<ProgressMetric>)
  {
    forall d :: Filter(r, DatedAt(d)) == Filter(ms, DatedAt(d))
  }

  /** One step of a stable sort, newest first: `m` goes after every element that
      is at least as new as it and before every strictly older one, so the
      result is sorted, holds one more metric, and among equal dates `m` comes
      last while the others keep their order. */
  function InsertByDate(sorted: seq<ProgressMetric>, m: ProgressMetric): (r: seq<ProgressMetric>)
    requires SortedByDateDesc(sorted)
    ensures SortedByDateDesc(r)
    ensures multiset(r) == multiset(sorted) + multiset{m}
    ensures KeepsOrderOfTies(r, sorted + [m])
    ensures |r| == |sorted| + 1
  {
    var k := InsertionPoint(sorted, m);
    var before, after := sorted[..k], sorted[k..];
    assert sorted == before + after;
    InsertionSorted(before, after, m);
    InsertionKeepsOrderOfTies(before, after, m);
    before + [m] + after
  }

  /** Putting `m` between the metrics at least as new and the strictly older
      ones keeps a newest-first list sorted. */
  lemma InsertionSorted(before: seq<ProgressMetric>, after: seq<ProgressMetric>, m: ProgressMetric)
    requires SortedByDateDesc(before + after)
    requires forall i :: 0 <= i < |before| ==> before[i].date >= m.date
    requires forall i :: 0 <= i < |after| ==> after[i].date < m.date
    ensures SortedByDateDesc(before + [m] + after)
  {
    var s, r := before + after, before + [m] + after;
    var k := |before|;
    forall i, j | 0 <= i < j < |r| ensures r[i].date >= r[j].date {
      if j < k {
        assert r[i] == s[i] && r[j] == s[j];
      } else if i > k {
        assert r[i] == s[i - 1] && r[j] == s[j - 1];
      } else if i < k {
        assert r[i] == before[i];
      } else {
        assert r[j] == after[j - k - 1];
      }
    }
  }

  /** Metrics strictly older than `m` after it, and `m` is last among its date. */
  lemma InsertionKeepsTies(before: seq<ProgressMetric>, after: seq<ProgressMetric>, m: ProgressMetric, d: Timestamp)
    requires forall i :: 0 <= i < |after| ==> after[i].date < m.date
    ensures Filter(before + [m] + after, DatedAt(d)) == Filter(before + after + [m], DatedAt(d))
  {
    var f := DatedAt(d);
    var fb, fm, fa := Filter(before, f), Filter([m], f), Filter(after, f);
    FilterAppend(before + [m], after, f);
    FilterAppend(before, [m], f);
    FilterAppend(before + after, [m], f);
    FilterAppend(before, after, f);
    if d == m.date {
      FilterAll(after, f);
    } else {
      FilterAll([m], f);
    }
    SwapEmpty(fb, fm, fa);
  }

  lemma SwapEmpty<T>(a: seq<T>, e: seq<T>, b: seq<T>)
    requires e == [] || b == []
    ensures a + e + b == a + b + e
  {
  }

  lemma InsertionKeepsOrderOfTies(before: seq<ProgressMetric>, after: seq<ProgressMetric>, m: ProgressMetric)
    requires forall i :: 0 <= i < |after| ==> after[i].date < m.date
    ensures KeepsOrderOfTies(before + [m] + after, before + after + [m])
  {
    forall d ensures Filter(before + [m] + after, DatedAt(d)) == Filter(before + after + [m], DatedAt(d)) {
      InsertionKeepsTies(before, after, m, d);
    }
  }

  /** Appending one metric to both sides keeps an order of ties. */
  lemma AppendKeepsOrderOfTies(r: seq<ProgressMetric>, ms: seq<ProgressMetric>, m: ProgressMetric)
    requires KeepsOrderOfTies(r, ms)
    ensures KeepsOrderOfTies(r + [m], ms + [m])
  {
    forall d ensures Filter(r + [m], DatedAt(d)) == Filter(ms + [m], DatedAt(d)) {
      FilterAppend(r, [m], DatedAt(d));
      FilterAppend(ms, [m], DatedAt(d));
    }
  }

  /** `metrics.sort((a, b) => b.date - a.date)`: a stable sort, newest first. */
  function SortByDateDesc(ms: seq<ProgressMetric>): (r: seq<ProgressMetric>)
    ensures SortedByDateDesc(r)
    ensures multiset(r) == multiset(ms)
    ensures KeepsOrderOfTies(r, ms)
    ensures |r| == |ms|
  {
    if ms == [] then []
    else
      var init, last := ms[..|ms| - 1], ms[|ms| - 1];
      var sortedInit := SortByDateDesc(init);
      assert ms == init + [last];
      AppendKeepsOrderOfTies(sortedInit, init, last);
      InsertByDate(sortedInit, last)
  }

  /** `.slice(0, 10)` of the sorted copy: the at most ten newest metrics,
      newest first. Every metric left out is no newer than the last one kept. */
  function RecentMetrics(ms: seq<ProgressMetric>): (r: seq<ProgressMetric>)
    ensures |r| == if |ms| < RECENT_WINDOW then |ms| else RECENT_WINDOW
    ensures r == SortByDateDesc(ms)[..|r|]
    ensures SortedByDateDesc(r)
    ensures multiset(r) <= multiset(ms)
    ensures forall x :: x in ms && r != [] ==> x.date <= r[0].date
    ensures forall x :: x in multiset(ms) - multiset(r) ==> x.date <= r[|r| - 1].date
  {
    var sorted := SortByDateDesc(ms);
    var r := Take(sorted, RECENT_WINDOW);
    assert r == sorted[..|r|];
    PrefixOfSorted(ms, sorted, |r|);
    r
  }

  /** A prefix of a sorted permutation of `ms` holds the newest metrics of `ms`. */
  lemma PrefixOfSorted(ms: seq<ProgressMetric>, sorted: seq<ProgressMetric>, n: nat)
    requires SortedByDateDesc(sorted) && multiset(sorted) == multiset(ms) && n <= |sorted|
    ensures SortedByDateDesc(sorted[..n])
    ensures multiset(sorted[..n]) <= multiset(ms)
    ensures n > 0 ==> forall x :: x in ms ==> x.date <= sorted[0].date
    ensures n > 0 ==> forall x :: x in multiset(ms) - multiset(sorted[..n]) ==> x.date <= sorted[n - 1].date
  {
    SplitMultiset(sorted, n);
    if n > 0 {
      HeadIsNewest(ms, sorted);
      LeftOutNoNewer(sorted, n);
    }
  }

  /** Cutting a sequence in two splits its multiset in two. */
  lemma SplitMultiset(s: seq<ProgressMetric>, n: nat)
    requires n <= |s|
    ensures multiset(s) == multiset(s[..n]) + multiset(s[n..])
  {
    assert s == s[..n] + s[n..];
  }

  /** The head of a newest-first permutation of `ms` is no older than any metric of `ms`. */
  lemma HeadIsNewest(ms: seq<ProgressMetric>, sorted: seq<ProgressMetric>)
    requires SortedByDateDesc(sorted) && multiset(sorted) == multiset(ms) && sorted != []
    ensures forall x :: x in ms ==> x.date <= sorted[0].date
  {
    forall x | x in ms ensures x.date <= sorted[0].date {
      assert x in multiset(sorted);
      var j :| 0 <= j < |sorted| && sorted[j] == x;
      assert j == 0 || sorted[0].date >= sorted[j].date;
    }
  }

  /** What a newest-first sequence keeps past its first `n` is no newer than its `n`-th. */
  lemma LeftOutNoNewer(sorted: seq<ProgressMetric>, n: nat)
    requires SortedByDateDesc(sorted) && 0 < n <= |sorted|
    ensures forall x :: x in multiset(sorted[n..]) ==> x.date <= sorted[n - 1].date
  {
    forall x | x in multiset(sorted[n..]) ensures x.date <= sorted[n - 1].date {
      var j :| 0 <= j < |sorted[n..]| && sorted[n..][j] == x;
      assert sorted[n + j] == x;
    }
  }

  /** The progress velocity: 0 with fewer than two metrics, otherwise the value
      of the newest minus the value of the oldest of the recent metrics,
      divided by how many recent metrics there are. Its sign is the sign of
      that difference, so progress rises exactly when the velocity is positive. */
  function Velocity(ms: seq<ProgressMetric>): (v: real)
    ensures |ms| < 2 ==> v == 0.0
    ensures |ms| >= 2 ==> v == Rise(ms) / |RecentMetrics(ms)| as real
    ensures |ms| >= 2 ==> var r := RecentMetrics(ms);
      && (v > 0.0 <==> r[0].value > r[|r| - 1].value)
      && (v < 0.0 <==> r[0].value < r[|r| - 1].value)
  {
    var n := |RecentMetrics(ms)|;
    if n > 1 then
      SignOfQuotient(Rise(ms), n as real);
      Rise(ms) / n as real
    else 0.0
  }

  /** How far the newest recent metric stands above the oldest recent one. */
  function Rise(ms: seq<ProgressMetric>): real
  {
    var recent := RecentMetrics(ms);
    if recent == [] then 0.0 else recent[0].value - recent[|recent| - 1].value
  }

  /** Dividing by a positive count keeps the sign. */
  lemma SignOfQuotient(d: real, n: real)
    requires n > 0.0
    ensures d / n > 0.0 <==> d > 0.0
    ensures d / n < 0.0 <==> d < 0.0
  {
    if d > 0.0 {
      QuotientBetween(d, n, 0.0, d / n);
    }
  }

  /** The trend label of a velocity; the thresholds themselves count as "stable". */
  function Classify(v: real): (t: Trend)
    ensures t == Improving <==> v > TREND_THRESHOLD
    ensures t == Declining <==> v < -TREND_THRESHOLD
    ensures t == Stable <==> -TREND_THRESHOLD <= v <= TREND_THRESHOLD
  {
    if v > TREND_THRESHOLD then Improving
    else if v < -TREND_THRESHOLD then Declining
    else Stable
  }

  /** The trend read off the metrics themselves: "improving" exactly when the
      rise over the recent window exceeds 0.2 per metric in the window, and
      "declining" exactly when it falls by more than that. */
  lemma TrendOfMetrics(ms: seq<ProgressMetric>)
    ensures Classify(Velocity(ms)) == Improving <==>
      |ms| >= 2 && Rise(ms) > TREND_THRESHOLD * |RecentMetrics(ms)| as real
    ensures Classify(Velocity(ms)) == Declining <==>
      |ms| >= 2 && Rise(ms) < -TREND_THRESHOLD * |RecentMetrics(ms)| as real
  {
    if |ms| >= 2 {
      TrendOfQuotient(Velocity(ms), Rise(ms), |RecentMetrics(ms)| as real);
    }
  }

  /** The trend of a rise spread over a positive count. */
  lemma TrendOfQuotient(v: real, rise: real, n: real)
    requires n > 0.0 && v == rise / n
    ensures Classify(v) == Improving <==> rise > TREND_THRESHOLD * n
    ensures Classify(v) == Declining <==> rise < -TREND_THRESHOLD * n
  {
    ThresholdOfQuotient(rise, n, TREND_THRESHOLD);
  }

  /** Comparing a quotient by a positive number with a threshold is comparing
      the dividend with the threshold scaled by that number. */
  lemma ThresholdOfQuotient(d: real, n: real, t: real)
    requires n > 0.0
    ensures d / n > t <==> d > t * n
    ensures d / n < -t <==> d < -t * n
  {
    var q := d / n;
    assert q * n == d;
    if q > t { assert q * n > t * n; }
    if q < -t { assert q * n < -t * n; }
    if q <= t { assert q * n <= t * n; }
    if q >= -t { assert q * n >= -t * n; }
  }

  // ---------------------------------------------------------------------------
  // Goals and milestones

  predicate IsCompletedGoal(g: Goal)
  {
    g.status == Some(COMPLETED)
  }

  /** `m.completed` is truthy: it was given, and it is `true`. */
  predicate IsAchieved(m: Milestone)
  {
    m.completed == Some(true)
  }

  /** 100 * completed / total, or 0 for a person without goals. */
  function CompletionRate(goals: seq<Goal>): (rate: real)
    ensures 0.0 <= rate <= 100.0
    ensures goals == [] ==> rate == 0.0
    ensures rate == 100.0 <==> goals != [] && forall i :: 0 <= i < |goals| ==> IsCompletedGoal(goals[i])
    ensures rate == 0.0 <==> forall i :: 0 <= i < |goals| ==> !IsCompletedGoal(goals[i])
  {
    var total := |goals|;
    var completed := Count(goals, IsCompletedGoal);
    if total > 0 then
      FractionFacts(completed as real, total as real);
      (completed as real / total as real) * 100.0
    else 0.0
  }

  /** The number of milestones that are completed. */
  function Achievements(milestones: seq<Milestone>): (n: nat)
    ensures n <= |milestones|
    ensures n == 0 <==> forall i :: 0 <= i < |milestones| ==> !IsAchieved(milestones[i])
  {
    Count(milestones, IsAchieved)
  }

  // ---------------------------------------------------------------------------
  // Recommendations

  /** The recommendations, each appended when its condition holds, in the fixed
      order; the metric condition counts all of the person's metrics. */
  function Recommendations(completionRate: real, trend: Trend, achievements: nat, metricCount: nat): (r: seq<string>)
    ensures FOCUS_ON_GOALS in r <==> completionRate < 50.0
    ensures REVIEW_STRATEGY in r <==> trend == Declining
    ensures SET_MILESTONES in r <==> achievements == 0
    ensures TRACK_MORE in r <==> metricCount < 5
  {
    var r4 := if metricCount < 5 then [TRACK_MORE] else [];
    var r3 := (if achievements == 0 then [SET_MILESTONES] else []) + r4;
    var r2 := (if trend == Declining then [REVIEW_STRATEGY] else []) + r3;
    (if completionRate < 50.0 then [FOCUS_ON_GOALS] else []) + r2
  }

  /** Putting `x` in front of both sides, or only in front of the longer one,
      keeps a subsequence a subsequence. */
  lemma MaybeConsSubsequence(tail: seq<string>, rest: seq<string>, x: string, c: bool)
    requires IsSubsequence(tail, rest) && x !in tail
    ensures IsSubsequence((if c then [x] else []) + tail, [x] + rest)
  {
    if c {
      assert ([x] + tail)[1..] == tail;
    } else {
      assert [] + tail == tail;
      assert tail == [] || tail[0] != x;
      assert ([x] + rest)[1..] == rest;
    }
  }

  /** The recommendations keep the fixed order of the four messages, so there
      are at most four of them. */
  lemma RecommendationsInOrder(completionRate: real, trend: Trend, achievements: nat, metricCount: nat)
    ensures IsSubsequence(Recommendations(completionRate, trend, achievements, metricCount), ALL_RECOMMENDATIONS)
    ensures |Recommendations(completionRate, trend, achievements, metricCount)| <= 4
  {
    var r4 := if metricCount < 5 then [TRACK_MORE] else [];
    var r3 := (if achievements == 0 then [SET_MILESTONES] else []) + r4;
    var r2 := (if trend == Declining then [REVIEW_STRATEGY] else []) + r3;
    MaybeConsSubsequence([], [], TRACK_MORE, metricCount < 5);
    MaybeConsSubsequence(r4, [TRACK_MORE], SET_MILESTONES, achievements == 0);
    MaybeConsSubsequence(r3, [SET_MILESTONES, TRACK_MORE], REVIEW_STRATEGY, trend == Declining);
    MaybeConsSubsequence(r2, [REVIEW_STRATEGY, SET_MILESTONES, TRACK_MORE], FOCUS_ON_GOALS, completionRate < 50.0);
    SubsequenceMembers(Recommendations(completionRate, trend, achievements, metricCount), ALL_RECOMMENDATIONS);
  }

  // ---------------------------------------------------------------------------
  // The insight record

  /** `getPersonInsights` once the person has been found: `metrics`, `goals` and
      `milestones` are that person's, `people` is everyone in the store. */
  function Insights(person: Person, metrics: seq<ProgressMetric>, goals: seq<Goal>,
                    milestones: seq<Milestone>, people: seq<Person>): (d: InsightData)
    ensures d.personId == person.id
    ensures d.progressVelocity == Velocity(metrics)
    ensures d.trend == Classify(d.progressVelocity)
    ensures d.completionRate == CompletionRate(goals)
    ensures d.achievements == Achievements(milestones)
    ensures d.comparisonToFamily == ComparisonToFamily(person, people)
    ensures d.recommendations == Recommendations(d.completionRate, d.trend, d.achievements, |metrics|)
  {
    var velocity := Velocity(metrics);
    var trend := Classify(velocity);
    var rate := CompletionRate(goals);
    var achievements := Achievements(milestones);
    InsightData(person.id, velocity, trend, rate,
                Recommendations(rate, trend, achievements, |metrics|),
                achievements, ComparisonToFamily(person, people))
  }

  // ---------------------------------------------------------------------------
  // Family statistics

  function HasCategory(category: string): ProgressMetric -> bool
  {
    (m: ProgressMetric) => m.category == category
  }

  /** The `reduce` that adds up metric values. */
  function SumValues(ms: seq<ProgressMetric>): real
  {
    if ms == [] then 0.0 else ms[0].value + SumValues(ms[1..])
  }

  /** The sum is what `reduce` accumulates from 0 left to right: the sum of
      all but the last value, plus the last one. */
  lemma {:induction false} SumValuesAddsLast(ms: seq<ProgressMetric>)
    requires ms != []
    ensures SumValues(ms) == SumValues(ms[..|ms| - 1]) + ms[|ms| - 1].value
  {
    if |ms| > 1 {
      SumValuesAddsLast(ms[1..]);
      assert ms[..|ms| - 1][1..] == ms[1..][..|ms| - 2];
    }
  }

  /** The mean value of a non-empty list of metrics: the value that, taken
      once per metric, adds up to their sum. */
  function MeanValue(ms: seq<ProgressMetric>): (r: real)
    requires ms != []
    ensures r * |ms| as real == SumValues(ms)
  {
    SumValues(ms) / |ms| as real
  }

  /** If every value lies in [lo, hi], so does their sum scaled by the count. */
  lemma {:induction false} SumValuesBounds(ms: seq<ProgressMetric>, lo: real, hi: real)
    requires forall i :: 0 <= i < |ms| ==> lo <= ms[i].value <= hi
    ensures |ms| as real * lo <= SumValues(ms) <= |ms| as real * hi
  {
    if ms != [] {
      SumValuesBounds(ms[1..], lo, hi);
      assert |ms| as real * lo == lo + |ms[1..]| as real * lo;
      assert |ms| as real * hi == hi + |ms[1..]| as real * hi;
    }
  }

  /** A category average of values on the 0..10 scale stays on that scale:
      a mean lies between the smallest and the largest value. */
  lemma {:induction false} MeanValueBounds(ms: seq<ProgressMetric>, lo: real, hi: real)
    requires ms != []
    requires forall i :: 0 <= i < |ms| ==> lo <= ms[i].value <= hi
    ensures lo <= MeanValue(ms) <= hi
  {
    SumValuesBounds(ms, lo, hi);
    QuotientBetween(SumValues(ms), |ms| as real, lo, hi);
  }

  /** `averages` holds a key for each category of `categories` that has a
      metric, and under it that category's mean value. */
  ghost predicate AveragesOf(averages: map<string, real>, metrics: seq<ProgressMetric>, categories: seq<string>)
  {
    && (forall c :: c in averages <==> c in categories && Filter(metrics, HasCategory(c)) != [])
    && (forall c :: c in averages ==>
         Filter(metrics, HasCategory(c)) != [] && averages[c] == MeanValue(Filter(metrics, HasCategory(c))))
  }

  /** Handling one more category adds its mean exactly when it has a metric. */
  lemma AverageStep(averages: map<string, real>, metrics: seq<ProgressMetric>, categories: seq<string>,
                    category: string)
    requires AveragesOf(averages, metrics, categories)
    ensures var categoryMetrics := Filter(metrics, HasCategory(category));
      AveragesOf(if |categoryMetrics| > 0 then averages[category := MeanValue(categoryMetrics)] else averages,
                 metrics, categories + [category])
  {
  }

  /** The `forEach` over the seven categories that fills `categoryAverages`:
      a key for each category with at least one metric, holding that
      category's mean value; metrics of any other category are ignored. */
  method CategoryAverages(metrics: seq<ProgressMetric>) returns (averages: map<string, real>)
    ensures forall c :: c in averages <==> c in METRIC_CATEGORIES && Filter(metrics, HasCategory(c)) != []
    ensures forall c :: c in averages ==>
      Filter(metrics, HasCategory(c)) != [] && averages[c] == MeanValue(Filter(metrics, HasCategory(c)))
  {
    averages := map[];
    for i := 0 to |METRIC_CATEGORIES|
      invariant AveragesOf(averages, metrics, METRIC_CATEGORIES[..i])
    {
      var category := METRIC_CATEGORIES[i];
      AverageStep(averages, metrics, METRIC_CATEGORIES[..i], category);
      assert METRIC_CATEGORIES[..i + 1] == METRIC_CATEGORIES[..i] + [category];
      var categoryMetrics := Filter(metrics, HasCategory(category));
      if |categoryMetrics| > 0 {
        averages := averages[category := MeanValue(categoryMetrics)];
      }
    }
    assert METRIC_CATEGORIES[..|METRIC_CATEGORIES|] == METRIC_CATEGORIES;
  }
}
