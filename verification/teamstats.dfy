/** One team's season profile: its line in the overall, home and away
    tables side by side, with the totals and per-match figures derived from
    each line. */
module TeamStats {
  import opened Options
  import opened Tally
  import opened Matches
  import opened Season
  import opened TeamRows
  import opened Ranking
  import opened Tables

  /** One line of the profile, for the table named by `category`. Rates are
      means per match, undefined where the source has NaN or infinity. */
  datatype StatsLine = StatsLine(
    category: Scope,
    mp: nat,
    win: nat,
    draw: nat,
    lost: nat,
    gs: int,
    gc: int,
    totalGoals: int,
    position: nat,
    points: int,
    avgPoints: Option<real>,
    avgGs: Option<real>,
    avgGc: Option<real>,
    avgGoals: Option<real>,
    cornersFor: Option<real>,
    cornersAgainst: Option<real>,
    cornersTotal: Option<real>,
    shotsOnGoalFor: Option<real>,
    shotsOnGoalAgainst: Option<real>,
    foulsCommitted: Option<real>,
    foulsSuffered: Option<real>,
    foulsTotal: Option<real>)

  /** The profile line read off a table entry: every figure the entry
      carries is copied, and the totals and the points per match are derived
      from them. */
  function LineOf(category: Scope, e: RankedRow): (s: StatsLine)
    ensures s.category == category && ReadsEntry(s, e)
    ensures s.totalGoals == s.gs + s.gc
    ensures s.avgPoints.Some? <==> s.mp > 0
    ensures s.avgPoints.Some? ==> s.avgPoints.value * (s.mp as real) == s.points as real
    ensures s.avgGoals.Some? <==> s.avgGs.Some? && s.avgGc.Some?
    ensures s.avgGoals.Some? ==> s.avgGoals.value == s.avgGs.value + s.avgGc.value
    ensures s.cornersTotal.Some? <==> s.cornersFor.Some? && s.cornersAgainst.Some?
    ensures s.cornersTotal.Some? ==> s.cornersTotal.value == s.cornersFor.value + s.cornersAgainst.value
    ensures s.foulsTotal.Some? <==> s.foulsCommitted.Some? && s.foulsSuffered.Some?
    ensures s.foulsTotal.Some? ==> s.foulsTotal.value == s.foulsCommitted.value + s.foulsSuffered.value
  {
    var r := e.row;
    StatsLine(
      category, r.played, r.won, r.draw, r.lost,
      r.goalsScored, r.goalsConceded, r.goalsScored + r.goalsConceded,
      e.rank, r.points,
      Quotient(r.points as real, r.played as real),
      r.goalsScoredPg, r.goalsConcededPg, AddOpt(r.goalsScoredPg, r.goalsConcededPg),
      r.cornersFor, r.cornersAgainst, AddOpt(r.cornersFor, r.cornersAgainst),
      r.shotsToScore, r.shotsToConcede,
      r.foulsCommitted, r.foulsSuffered, AddOpt(r.foulsCommitted, r.foulsSuffered))
  }

  /** The entry of `team` in the table of `scope`, if it has one. */
  function Entry(rows: seq<Match>, scope: Scope, team: string): (r: Option<RankedRow>)
    ensures r.Some? <==> Appears(rows, team)
  {
    TableLookup(rows, scope, team);
    Lookup(Table(rows, scope), team)
  }

  /** The profile of `team`: its overall, home and away lines in that order.
      A team that played no match of the season has no entry in the tables
      (the source fails with a key error). */
  function CalcTeamStats(v: SeasonView, team: string): (r: Option<seq<StatsLine>>)
    ensures r.Some? <==> Appears(v.rows, team)
    ensures r.Some? ==> |r.value| == 3
    ensures r.Some? ==> r.value[0].category == OverallScope && r.value[1].category == HomeScope && r.value[2].category == AwayScope
  {
    var o := Entry(v.rows, OverallScope, team);
    var h := Entry(v.rows, HomeScope, team);
    var a := Entry(v.rows, AwayScope, team);
    if o.None? || h.None? || a.None? then None
    else Some([LineOf(OverallScope, o.value), LineOf(HomeScope, h.value), LineOf(AwayScope, a.value)])
  }

  /** A team's entry is its row for that scope, with its dense rank among
      the keys of all rows of the table. */
  lemma {:induction false} EntryRow(rows: seq<Match>, scope: Scope, team: string)
    requires Appears(rows, team)
    ensures Entry(rows, scope, team).value.row == ScopeRow(rows, team, scope)
  {
    TableLookup(rows, scope, team);
  }

  lemma {:induction false} EntryRank(rows: seq<Match>, scope: Scope, team: string)
    requires Appears(rows, team)
    ensures Entry(rows, scope, team).value.rank == RankIn(rows, team)(scope)
  {
    TableLookup(rows, scope, team);
  }

  /** Every entry keeps the win/draw/loss partition and the points rule. */
  lemma {:induction false} EntryRules(rows: seq<Match>, scope: Scope, team: string)
    requires Appears(rows, team)
    ensures RulesHold(Entry(rows, scope, team).value.row)
  {
    EntryRow(rows, scope, team);
    ScopeRowRules(rows, team, scope);
  }

  /** The overall entry adds up the home and away entries. */
  lemma {:induction false} EntryTotals(rows: seq<Match>, team: string)
    requires Appears(rows, team)
    ensures var o, h, a := Entry(rows, OverallScope, team).value.row, Entry(rows, HomeScope, team).value.row,
                           Entry(rows, AwayScope, team).value.row;
      && o.played == h.played + a.played
      && o.won == h.won + a.won
      && o.draw == h.draw + a.draw
      && o.lost == h.lost + a.lost
      && o.goalsScored == h.goalsScored + a.goalsScored
      && o.goalsConceded == h.goalsConceded + a.goalsConceded
      && o.points == h.points + a.points
  {
    EntryRow(rows, OverallScope, team);
    EntryRow(rows, HomeScope, team);
    EntryRow(rows, AwayScope, team);
    ScopeRowTotals(rows, team);
  }

  /** Profile line `s` reads the counts, goals, points, position and
      per-match rates off table entry `e`; shots on goal for and against are
      the entry's shots per goal scored and per goal conceded. */
  predicate ReadsEntry(s: StatsLine, e: RankedRow)
  {
    && s.mp == e.row.played && s.win == e.row.won && s.draw == e.row.draw && s.lost == e.row.lost
    && s.gs == e.row.goalsScored && s.gc == e.row.goalsConceded && s.points == e.row.points
    && s.position == e.rank
    && s.avgGs == e.row.goalsScoredPg && s.avgGc == e.row.goalsConcededPg
    && s.cornersFor == e.row.cornersFor && s.cornersAgainst == e.row.cornersAgainst
    && s.shotsOnGoalFor == e.row.shotsToScore && s.shotsOnGoalAgainst == e.row.shotsToConcede
    && s.foulsCommitted == e.row.foulsCommitted && s.foulsSuffered == e.row.foulsSuffered
  }

  /** The three lines of a profile are read off the team's three entries. */
  lemma {:induction false} TeamStatsLines(v: SeasonView, team: string)
    requires Appears(v.rows, team)
    ensures var r := CalcTeamStats(v, team).value;
      && ReadsEntry(r[0], Entry(v.rows, OverallScope, team).value)
      && ReadsEntry(r[1], Entry(v.rows, HomeScope, team).value)
      && ReadsEntry(r[2], Entry(v.rows, AwayScope, team).value)
  {
  }

  /** Each line's position is the team's dense rank in that line's table. */
  lemma {:induction false} TeamStatsPositions(v: SeasonView, team: string)
    requires Appears(v.rows, team)
    ensures var r := CalcTeamStats(v, team).value;
      forall i :: 0 <= i < 3 ==> r[i].position == RankIn(v.rows, team)(r[i].category)
  {
    TeamStatsLines(v, team);
    EntryRank(v.rows, OverallScope, team);
    EntryRank(v.rows, HomeScope, team);
    EntryRank(v.rows, AwayScope, team);
    LinesKeepRanks(CalcTeamStats(v, team).value, Entry(v.rows, OverallScope, team).value,
                   Entry(v.rows, HomeScope, team).value, Entry(v.rows, AwayScope, team).value,
                   RankIn(v.rows, team));
  }

  /** The dense rank of `team` in each table. */
  function RankIn(rows: seq<Match>, team: string): Scope -> nat
  {
    scope => DenseRank(KeySet(ScopeRows(rows, scope)), RankPoints(ScopeRow(rows, team, scope)))
  }

  lemma LinesKeepRanks(r: seq<StatsLine>, o: RankedRow, h: RankedRow, a: RankedRow, rank: Scope -> nat)
    requires |r| == 3 && ReadsEntry(r[0], o) && ReadsEntry(r[1], h) && ReadsEntry(r[2], a)
    requires r[0].category == OverallScope && r[1].category == HomeScope && r[2].category == AwayScope
    requires o.rank == rank(OverallScope) && h.rank == rank(HomeScope) && a.rank == rank(AwayScope)
    ensures forall i :: 0 <= i < 3 ==> r[i].position == rank(r[i].category)
  {
  }

  /** Within each line, matches split into wins, draws and losses and points
      are three per win plus one per draw. */
  lemma {:induction false} TeamStatsLineRules(v: SeasonView, team: string)
    requires Appears(v.rows, team)
    ensures var r := CalcTeamStats(v, team).value;
      forall i :: 0 <= i < 3 ==>
        && r[i].mp == r[i].win + r[i].draw + r[i].lost
        && r[i].points == 3 * r[i].win + r[i].draw
  {
    TeamStatsLines(v, team);
    EntryRules(v.rows, OverallScope, team);
    EntryRules(v.rows, HomeScope, team);
    EntryRules(v.rows, AwayScope, team);
    LinesKeepRules(CalcTeamStats(v, team).value, Entry(v.rows, OverallScope, team).value,
                   Entry(v.rows, HomeScope, team).value, Entry(v.rows, AwayScope, team).value);
  }

  predicate RulesHold(r: TeamRow)
  {
    r.played == r.won + r.draw + r.lost && r.points == 3 * r.won + r.draw
  }

  lemma LinesKeepRules(r: seq<StatsLine>, o: RankedRow, h: RankedRow, a: RankedRow)
    requires |r| == 3 && ReadsEntry(r[0], o) && ReadsEntry(r[1], h) && ReadsEntry(r[2], a)
    requires RulesHold(o.row) && RulesHold(h.row) && RulesHold(a.row)
    ensures forall i :: 0 <= i < 3 ==>
      && r[i].mp == r[i].win + r[i].draw + r[i].lost
      && r[i].points == 3 * r[i].win + r[i].draw
  {
  }

  /** The overall line adds up the home and away lines. */
  lemma {:induction false} TeamStatsTotalIsHomePlusAway(v: SeasonView, team: string)
    requires Appears(v.rows, team)
    ensures var r := CalcTeamStats(v, team).value;
      && r[0].mp == r[1].mp + r[2].mp
      && r[0].win == r[1].win + r[2].win
      && r[0].draw == r[1].draw + r[2].draw
      && r[0].lost == r[1].lost + r[2].lost
      && r[0].gs == r[1].gs + r[2].gs
      && r[0].gc == r[1].gc + r[2].gc
      && r[0].totalGoals == r[1].totalGoals + r[2].totalGoals
      && r[0].points == r[1].points + r[2].points
  {
    TeamStatsLines(v, team);
    EntryTotals(v.rows, team);
  }

  /** Without self-matches the overall line counts the team's matches
      directly: played, won, drawn, lost and points over every match it took
      part in. */
  lemma {:induction false} TeamStatsTotalDirect(v: SeasonView, team: string)
    requires Appears(v.rows, team) && NoSelfMatches(v.rows)
    ensures var t := CalcTeamStats(v, team).value[0];
      && t.mp == Count(v.rows, InMatch(team))
      && t.win == Count(v.rows, TeamWon(team))
      && t.draw == Count(v.rows, TeamDrew(team))
      && t.lost == Count(v.rows, TeamLost(team))
      && t.points == Sum(v.rows, TeamPoints(team))
  {
    TeamStatsLines(v, team);
    EntryRow(v.rows, OverallScope, team);
    OverallMatchesDirect(v.rows, team);
  }
}
