/** The season-wide goal and match-statistic summaries: for the home side,
    the away side and both together, the totals and (for goals) the means
    per match, and for each statistic its total, largest and smallest
    single-match value. */
module Summaries {
  import opened Options
  import opened Tally
  import opened Matches
  import opened Season

  // ---------------------------------------------------------------------
  // Goals

  /** One line of the goal summary: full-time, first-half and second-half
      goals with their means per match (undefined for an empty season). */
  datatype GoalLine = GoalLine(
    ftCnt: int, ftAvg: Option<real>,
    fhCnt: int, fhAvg: Option<real>,
    shCnt: int, shAvg: Option<real>)

  datatype GoalsSummary = GoalsSummary(home: GoalLine, away: GoalLine, total: GoalLine)

  /** A goal line from its full-time and first-half totals over `n` matches;
      the second half is what the first half leaves of the full time. */
  function MakeGoalLine(ft: int, fh: int, n: nat): (r: GoalLine)
    ensures r.ftCnt == ft && r.fhCnt == fh && r.shCnt + fh == ft
    ensures r.ftAvg == Quotient(ft as real, n as real)
    ensures r.fhAvg == Quotient(fh as real, n as real)
    ensures r.shAvg == Quotient(r.shCnt as real, n as real)
  {
    var n' := n as real;
    GoalLine(ft, Quotient(ft as real, n'), fh, Quotient(fh as real, n'), ft - fh, Quotient((ft - fh) as real, n'))
  }

  function FtHome(m: Match): int { m.fthg }
  function FtAway(m: Match): int { m.ftag }
  function HtHome(m: Match): int { m.hthg }
  function HtAway(m: Match): int { m.htag }

  /** Full-time and first-half goal totals of the home side, the away side
      and both, the second half as their difference, and the means per
      match of the season. */
  function SummaryGoals(v: SeasonView): (r: GoalsSummary)
    ensures r.total.ftCnt == r.home.ftCnt + r.away.ftCnt
    ensures r.total.fhCnt == r.home.fhCnt + r.away.fhCnt
    ensures r.total.shCnt == r.home.shCnt + r.away.shCnt
    ensures r.home.ftCnt == Sum(v.rows, FtHome) && r.away.ftCnt == Sum(v.rows, FtAway)
    ensures r.home.fhCnt == Sum(v.rows, HtHome) && r.away.fhCnt == Sum(v.rows, HtAway)
    ensures r.home.shCnt == r.home.ftCnt - r.home.fhCnt
    ensures r.away.shCnt == r.away.ftCnt - r.away.fhCnt
    ensures r.total.shCnt == r.total.ftCnt - r.total.fhCnt
  {
    var fth, fta := Sum(v.rows, FtHome), Sum(v.rows, FtAway);
    var hth, hta := Sum(v.rows, HtHome), Sum(v.rows, HtAway);
    GoalsSummary(
      MakeGoalLine(fth, hth, v.numOfMatches),
      MakeGoalLine(fta, hta, v.numOfMatches),
      MakeGoalLine(fth + fta, hth + hta, v.numOfMatches))
  }

  function FtTotal(m: Match): int { m.fthg + m.ftag }
  function HtTotal(m: Match): int { m.hthg + m.htag }
  function ShHome(m: Match): int { m.fthg - m.hthg }
  function ShAway(m: Match): int { m.ftag - m.htag }
  function ShTotal(m: Match): int { (m.fthg + m.ftag) - (m.hthg + m.htag) }

  /** The summary's totals are the sums, over the season's matches, of each
      match's own goals: the full-time total of both sides, and the goals
      each side scored after half time. */
  lemma {:induction false} SummaryGoalsPerMatch(v: SeasonView)
    ensures var r := SummaryGoals(v);
      && r.total.ftCnt == Sum(v.rows, FtTotal)
      && r.home.shCnt == Sum(v.rows, ShHome)
      && r.away.shCnt == Sum(v.rows, ShAway)
      && r.total.shCnt == Sum(v.rows, ShTotal)
  {
    SumAdd(v.rows, FtHome, FtAway, FtTotal);
    SumSub(v.rows, FtHome, HtHome, ShHome);
    SumSub(v.rows, FtAway, HtAway, ShAway);
    SumAdd(v.rows, ShHome, ShAway, ShTotal);
  }

  /** The means are undefined exactly for an empty season, and in a season
      view they are the column means of its matches. */
  lemma {:induction false} SummaryGoalsMeans(v: SeasonView)
    requires v.Valid()
    ensures var r := SummaryGoals(v);
      && (r.home.ftAvg.Some? <==> v.numOfMatches > 0)
      && r.home.ftAvg == Mean(v.rows, FtHome)
      && r.away.ftAvg == Mean(v.rows, FtAway)
      && r.total.ftAvg == Mean(v.rows, FtTotal)
      && r.home.fhAvg == Mean(v.rows, HtHome)
      && r.away.fhAvg == Mean(v.rows, HtAway)
      && r.total.fhAvg == Mean(v.rows, HtTotal)
      && r.home.shAvg == Mean(v.rows, ShHome)
      && r.away.shAvg == Mean(v.rows, ShAway)
      && r.total.shAvg == Mean(v.rows, ShTotal)
  {
    var r := SummaryGoals(v);
    SummaryGoalsPerMatch(v);
    SumAdd(v.rows, HtHome, HtAway, HtTotal);
    if |v.rows| > 0 {
      var n := |v.rows| as real;
      CancelMul(r.home.ftAvg.value, Mean(v.rows, FtHome).value, n);
      CancelMul(r.away.ftAvg.value, Mean(v.rows, FtAway).value, n);
      CancelMul(r.total.ftAvg.value, Mean(v.rows, FtTotal).value, n);
      CancelMul(r.home.fhAvg.value, Mean(v.rows, HtHome).value, n);
      CancelMul(r.away.fhAvg.value, Mean(v.rows, HtAway).value, n);
      CancelMul(r.total.fhAvg.value, Mean(v.rows, HtTotal).value, n);
      CancelMul(r.home.shAvg.value, Mean(v.rows, ShHome).value, n);
      CancelMul(r.away.shAvg.value, Mean(v.rows, ShAway).value, n);
      CancelMul(r.total.shAvg.value, Mean(v.rows, ShTotal).value, n);
    }
  }

  // ---------------------------------------------------------------------
  // Match statistics

  /** Whose column a statistic line reads: the home side, the away side, or
      both added per match. */
  datatype Side = HomeSide | AwaySide | BothSides

  /** A statistic's column for a side, per match. */
  function StatCol(st: Stat, side: Side): Match -> int
  {
    match side
    case HomeSide => (m: Match) => StatValue(m.home, st)
    case AwaySide => (m: Match) => StatValue(m.away, st)
    case BothSides => (m: Match) => StatValue(m.home, st) + StatValue(m.away, st)
  }

  /** Total, largest and smallest single-match value of a column; the
      extremes are undefined over an empty season. */
  datatype StatLine = StatLine(cnt: int, max: Option<int>, min: Option<int>)

  /** One line of the statistics summary: statistic `st` read from `side`
      over the season's matches. The whole summary is this line for every
      side and statistic. */
  function SummaryStat(v: SeasonView, side: Side, st: Stat): (r: StatLine)
    ensures r.cnt == Sum(v.rows, StatCol(st, side))
    ensures r.max.Some? <==> |v.rows| > 0
    ensures r.max.Some? ==> forall i :: 0 <= i < |v.rows| ==> StatCol(st, side)(v.rows[i]) <= r.max.value
    ensures r.max.Some? ==> exists i :: 0 <= i < |v.rows| && StatCol(st, side)(v.rows[i]) == r.max.value
    ensures r.min.Some? <==> |v.rows| > 0
    ensures r.min.Some? ==> forall i :: 0 <= i < |v.rows| ==> r.min.value <= StatCol(st, side)(v.rows[i])
    ensures r.min.Some? ==> exists i :: 0 <= i < |v.rows| && StatCol(st, side)(v.rows[i]) == r.min.value
  {
    var col := StatCol(st, side);
    StatLine(Sum(v.rows, col), MaxOpt(v.rows, col), MinOpt(v.rows, col))
  }

  /** Per statistic the total of both sides is the home total plus the away
      total. */
  lemma {:induction false} StatCountTotal(v: SeasonView, st: Stat)
    ensures SummaryStat(v, BothSides, st).cnt == SummaryStat(v, HomeSide, st).cnt + SummaryStat(v, AwaySide, st).cnt
  {
    SumAdd(v.rows, StatCol(st, HomeSide), StatCol(st, AwaySide), StatCol(st, BothSides));
  }

  /** Per statistic the largest single-match value of both sides is at
      least each side's largest and at most their sum. */
  lemma {:induction false} StatMaxTotal(v: SeasonView, st: Stat)
    ensures var h, a, t := SummaryStat(v, HomeSide, st), SummaryStat(v, AwaySide, st), SummaryStat(v, BothSides, st);
      && (t.max.Some? <==> h.max.Some? && a.max.Some?)
      && (t.max.Some? ==> h.max.value <= t.max.value && a.max.value <= t.max.value)
      && (t.max.Some? ==> t.max.value <= h.max.value + a.max.value)
  {
    if |v.rows| > 0 {
      MaxOfSum(v.rows, StatCol(st, HomeSide), StatCol(st, AwaySide), StatCol(st, BothSides));
    }
  }

  /** Over a non-empty column of non-negative parts, the largest value of
      the sum column is at least each part's largest and at most their sum. */
  lemma MaxOfSum(s: seq<Match>, f: Match -> int, g: Match -> int, h: Match -> int)
    requires |s| > 0
    requires forall x :: h(x) == f(x) + g(x) && f(x) >= 0 && g(x) >= 0
    ensures Max(s, f) <= Max(s, h) && Max(s, g) <= Max(s, h)
    ensures Max(s, h) <= Max(s, f) + Max(s, g)
  {
    var i :| 0 <= i < |s| && h(s[i]) == Max(s, h);
    assert f(s[i]) <= Max(s, f) && g(s[i]) <= Max(s, g);
    var j :| 0 <= j < |s| && f(s[j]) == Max(s, f);
    assert h(s[j]) <= Max(s, h);
    var k :| 0 <= k < |s| && g(s[k]) == Max(s, g);
    assert h(s[k]) <= Max(s, h);
  }

  /** Per statistic the smallest single-match value of both sides is at
      least the sum of the sides' smallest. */
  lemma {:induction false} StatMinTotal(v: SeasonView, st: Stat)
    ensures var h, a, t := SummaryStat(v, HomeSide, st), SummaryStat(v, AwaySide, st), SummaryStat(v, BothSides, st);
      && (t.min.Some? <==> h.min.Some? && a.min.Some?)
      && (t.min.Some? ==> h.min.value + a.min.value <= t.min.value)
  {
    var rows := v.rows;
    var h, a, t := SummaryStat(v, HomeSide, st), SummaryStat(v, AwaySide, st), SummaryStat(v, BothSides, st);
    if |rows| > 0 {
      var hc, ac, tc := StatCol(st, HomeSide), StatCol(st, AwaySide), StatCol(st, BothSides);
      var m :| 0 <= m < |rows| && tc(rows[m]) == t.min.value;
      assert h.min.value <= hc(rows[m]) && a.min.value <= ac(rows[m]);
    }
  }
}
