/** The non-visual part of the progress badge: where a level stands in the
    ordered list of levels, the percentage shown for it, and its colour class. */
module ProgressBadge {
  import opened Schema
  import Lists

  const LEVEL_COLORS: map<string, string> := map[
    "Bad" := "bg-red-500/10 text-red-500 border-red-500/20",
    "Poor" := "bg-orange-500/10 text-orange-500 border-orange-500/20",
    "Average" := "bg-yellow-500/10 text-yellow-500 border-yellow-500/20",
    "Good" := "bg-green-500/10 text-green-500 border-green-500/20",
    "Great" := "bg-blue-500/10 text-blue-500 border-blue-500/20",
    "Excellent" := "bg-indigo-500/10 text-indigo-500 border-indigo-500/20",
    "Elite" := "bg-purple-500/10 text-purple-500 border-purple-500/20",
    "Elite+" := "bg-purple-600/10 text-purple-600 border-purple-600/20",
    "Elite++" := "bg-purple-700/10 text-purple-700 border-purple-700/20"
  ]

  /** `PROGRESS_LEVELS.indexOf(level)`: the rank 0..8 of a listed level, -1 for any other string. */
  function LevelIndex(level: string): (r: int)
    ensures -1 <= r < |PROGRESS_LEVELS|
    ensures r == -1 <==> level !in PROGRESS_LEVELS
    ensures 0 <= r ==> PROGRESS_LEVELS[r] == level
  {
    Lists.IndexOf(PROGRESS_LEVELS, level)
  }

  /** `(index + 1) / PROGRESS_LEVELS.length * 100` */
  function Percentage(level: string): (p: real)
    ensures level !in PROGRESS_LEVELS ==> p == 0.0
    ensures level in PROGRESS_LEVELS ==> 0.0 < p <= 100.0
  {
    var rank, count := LevelIndex(level) + 1, |PROGRESS_LEVELS|;
    ShareOfHundred(rank, count);
    (rank as real / count as real) * 100.0
  }

  /** `rank` out of `count`, as a percentage: 0 for rank 0, otherwise in (0, 100]. */
  lemma ShareOfHundred(rank: nat, count: nat)
    requires 0 < count && rank <= count
    ensures rank == 0 ==> (rank as real / count as real) * 100.0 == 0.0
    ensures rank > 0 ==> 0.0 < (rank as real / count as real) * 100.0 <= 100.0
  {
    var q := rank as real / count as real;
    assert q * count as real == rank as real;
    assert q <= 1.0;
  }

  /** `LEVEL_COLORS[level] || LEVEL_COLORS["Average"]` */
  function LevelColor(level: string): (c: string)
    ensures level in LEVEL_COLORS ==> c == LEVEL_COLORS[level]
    ensures level !in LEVEL_COLORS ==> c == LEVEL_COLORS["Average"]
  {
    if level in LEVEL_COLORS && LEVEL_COLORS[level] != "" then LEVEL_COLORS[level]
    else LEVEL_COLORS["Average"]
  }

  /** The listed levels are exactly the levels with a colour of their own, so
      every unlisted level is drawn in the colour of "Average". */
  lemma ColorsCoverExactlyTheLevels(level: string)
    ensures level in LEVEL_COLORS <==> level in PROGRESS_LEVELS
    ensures level !in PROGRESS_LEVELS ==> LevelColor(level) == LevelColor("Average")
  {
  }

  /** The i-th listed level has index i. */
  lemma {:induction false} IndexOfListed(i: nat)
    requires i < |PROGRESS_LEVELS|
    ensures LevelIndex(PROGRESS_LEVELS[i]) == i
  {
    EnumerationsAreDistinct();
  }

  /** The percentage of the i-th level is (i + 1) ninths of 100. */
  lemma {:induction false} PercentageOfListed(i: nat)
    requires i < |PROGRESS_LEVELS|
    ensures Percentage(PROGRESS_LEVELS[i]) == (i + 1) as real * 100.0 / 9.0
    ensures 0.0 < Percentage(PROGRESS_LEVELS[i]) <= 100.0
  {
    IndexOfListed(i);
    var x := (i + 1) as real;
    assert |PROGRESS_LEVELS| as real == 9.0;
    assert Percentage(PROGRESS_LEVELS[i]) == (x / 9.0) * 100.0;
    assert (x / 9.0) * 100.0 == x * 100.0 / 9.0;
    assert 1.0 <= x <= 9.0;
  }

  lemma {:induction false} PercentageExamples()
    ensures Percentage("Bad") == 100.0 / 9.0
    ensures Percentage("Elite++") == 100.0
  {
    PercentageOfListed(0);
    PercentageOfListed(8);
  }

  /** Going up the level order strictly increases the percentage. */
  lemma {:induction false} PercentageIncreasing(i: nat, j: nat)
    requires i < j < |PROGRESS_LEVELS|
    ensures Percentage(PROGRESS_LEVELS[i]) < Percentage(PROGRESS_LEVELS[j])
  {
    PercentageOfListed(i);
    PercentageOfListed(j);
  }
}
