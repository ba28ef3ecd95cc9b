/** One row of a league table: a team's record over its home matches, over
    its away matches, or over both. The home and away rows are computed from
    the team's matches at that venue; the overall row is composed from the
    two, summing counts and taking play-weighted averages of rates. */
module TeamRows {
  import opened Options
  import opened Tally
  import opened Matches

  datatype TeamRow = TeamRow(
    team: string,
    played: nat,
    won: nat,
    draw: nat,
    lost: nat,
    goalsScored: int,
    goalsConceded: int,
    gd: int,
    points: int,
    goalsScoredPg: Option<real>,
    goalsConcededPg: Option<real>,
    cornersFor: Option<real>,
    cornersAgainst: Option<real>,
    shotsMade: Option<real>,
    shotsAllowed: Option<real>,
    shotsToScore: Option<real>,
    shotsToConcede: Option<real>,
    yellowCards: Option<real>,
    redCardsTotal: int,
    foulsCommitted: Option<real>,
    foulsSuffered: Option<real>)

  // Columns and selections of the match table, seen from one venue.

  function AtVenue(team: string, v: Venue): Match -> bool
  {
    m => PlaysAt(m, team, v)
  }

  function WinAt(v: Venue): Match -> bool
  {
    m => Scored(m, v) > Conceded(m, v)
  }

  function DrawAt(v: Venue): Match -> bool
  {
    m => Scored(m, v) == Conceded(m, v)
  }

  function LossAt(v: Venue): Match -> bool
  {
    m => Scored(m, v) < Conceded(m, v)
  }

  function GoalsFor(v: Venue): Match -> int
  {
    m => Scored(m, v)
  }

  function GoalsAgainst(v: Venue): Match -> int
  {
    m => Conceded(m, v)
  }

  function OwnCol(v: Venue, st: Stat): Match -> int
  {
    m => StatValue(Own(m, v), st)
  }

  function OppCol(v: Venue, st: Stat): Match -> int
  {
    m => StatValue(Opp(m, v), st)
  }

  /** League points a match is worth to the side at venue `v`. */
  function PointsAt(v: Venue): Match -> int
  {
    m => if Scored(m, v) > Conceded(m, v) then 3 else if Scored(m, v) == Conceded(m, v) then 1 else 0
  }

  /** The matches `team` played at venue `v`. */
  function VenueGames(rows: seq<Match>, team: string, v: Venue): seq<Match>
  {
    Filter(rows, AtVenue(team, v))
  }

  /** `a / b` over two optional rates; undefined when either is, or when
      `b` is zero. */
  function RatioOpt(a: Option<real>, b: Option<real>): (r: Option<real>)
    ensures r.Some? <==> a.Some? && b.Some? && b.value != 0.0
    ensures r.Some? ==> r.value * b.value == a.value
  {
    if a.Some? && b.Some? then Quotient(a.value, b.value) else None
  }

  /** The row of `team` in the home table (`v == Home`) or the away table
      (`v == Away`). */
  function VenueRow(rows: seq<Match>, team: string, v: Venue): (r: TeamRow)
    ensures r.team == team
    ensures r.played == Count(rows, AtVenue(team, v))
  {
    var g := VenueGames(rows, team, v);
    var won := Count(g, WinAt(v));
    var draw := Count(g, DrawAt(v));
    var scored := Sum(g, GoalsFor(v));
    var conceded := Sum(g, GoalsAgainst(v));
    var scoredPg := Mean(g, GoalsFor(v));
    var concededPg := Mean(g, GoalsAgainst(v));
    var shotsMade := Mean(g, OwnCol(v, Shots));
    var shotsAllowed := Mean(g, OppCol(v, Shots));
    TeamRow(
      team, |g|, won, draw, Count(g, LossAt(v)),
      scored, conceded, scored - conceded, won * 3 + draw,
      scoredPg, concededPg,
      Mean(g, OwnCol(v, Corners)), Mean(g, OppCol(v, Corners)),
      shotsMade, shotsAllowed,
      RatioOpt(shotsMade, scoredPg), RatioOpt(shotsAllowed, concededPg),
      Mean(g, OwnCol(v, YellowCards)), Sum(g, OwnCol(v, RedCards)),
      Mean(g, OwnCol(v, Fouls)), Mean(g, OppCol(v, Fouls)))
  }

  /** Play-weighted average of a home rate and an away rate. Undefined when
      either rate is (the source's NaN propagates through `rate * played`). */
  function Weighted(hRate: Option<real>, hPlayed: nat, aRate: Option<real>, aPlayed: nat): (r: Option<real>)
    ensures r.Some? <==> hRate.Some? && aRate.Some? && hPlayed + aPlayed > 0
    ensures r.Some? ==> r.value * (hPlayed + aPlayed) as real
                        == hRate.value * hPlayed as real + aRate.value * aPlayed as real
  {
    if hRate.Some? && aRate.Some? then
      Quotient(hRate.value * hPlayed as real + aRate.value * aPlayed as real, (hPlayed + aPlayed) as real)
    else None
  }

  /** The overall row composed from a team's home row `h` and away row `a`. */
  function Combine(h: TeamRow, a: TeamRow): TeamRow
  {
    var won := h.won + a.won;
    var draw := h.draw + a.draw;
    TeamRow(
      h.team,
      h.played + a.played, won, draw, h.lost + a.lost,
      h.goalsScored + a.goalsScored, h.goalsConceded + a.goalsConceded, h.gd + a.gd,
      won * 3 + draw,
      Weighted(h.goalsScoredPg, h.played, a.goalsScoredPg, a.played),
      Weighted(h.goalsConcededPg, h.played, a.goalsConcededPg, a.played),
      Weighted(h.cornersFor, h.played, a.cornersFor, a.played),
      Weighted(h.cornersAgainst, h.played, a.cornersAgainst, a.played),
      Weighted(h.shotsMade, h.played, a.shotsMade, a.played),
      Weighted(h.shotsAllowed, h.played, a.shotsAllowed, a.played),
      Weighted(h.shotsToScore, h.played, a.shotsToScore, a.played),
      Weighted(h.shotsToConcede, h.played, a.shotsToConcede, a.played),
      Weighted(h.yellowCards, h.played, a.yellowCards, a.played),
      h.redCardsTotal + a.redCardsTotal,
      Weighted(h.foulsCommitted, h.played, a.foulsCommitted, a.played),
      Weighted(h.foulsSuffered, h.played, a.foulsSuffered, a.played))
  }

  /** The row of `team` in the overall table: its home and away rows
      composed, so it has played every match the team played at either
      venue. */
  function OverallRow(rows: seq<Match>, team: string): (r: TeamRow)
    ensures r.team == team
    ensures r.played == Count(rows, AtVenue(team, Home)) + Count(rows, AtVenue(team, Away))
  {
    Combine(VenueRow(rows, team, Home), VenueRow(rows, team, Away))
  }

  /** The row for `team` in the table of `scope`. */
  function ScopeRow(rows: seq<Match>, team: string, scope: Scope): TeamRow
  {
    match scope
    case HomeScope => VenueRow(rows, team, Home)
    case AwayScope => VenueRow(rows, team, Away)
    case OverallScope => OverallRow(rows, team)
  }

  /** The three league tables. */
  datatype Scope = HomeScope | AwayScope | OverallScope

  // ---------------------------------------------------------------------
  // Per-team selections over the whole season, from the team's own side
  // whichever venue it played at: the reference the composed overall row is
  // checked against.

  function InMatch(team: string): Match -> bool
  {
    m => Involves(m, team)
  }

  function TeamWon(team: string): Match -> bool
  {
    m => Involves(m, team) && Scored(m, VenueOf(m, team)) > Conceded(m, VenueOf(m, team))
  }

  function TeamDrew(team: string): Match -> bool
  {
    m => Involves(m, team) && Scored(m, VenueOf(m, team)) == Conceded(m, VenueOf(m, team))
  }

  function TeamLost(team: string): Match -> bool
  {
    m => Involves(m, team) && Scored(m, VenueOf(m, team)) < Conceded(m, VenueOf(m, team))
  }

  /** A column of the team's own side, zero in matches it did not play. */
  function TeamCol(team: string, hCol: Match -> int, aCol: Match -> int): Match -> int
  {
    (m: Match) => if m.homeTeam == team then hCol(m) else if m.awayTeam == team then aCol(m) else 0
  }

  function TeamPoints(team: string): Match -> int
  {
    TeamCol(team, PointsAt(Home), PointsAt(Away))
  }

  // ---------------------------------------------------------------------
  // Lemmas about one venue row

  /** Every match at the venue is a win, a draw or a loss, exactly one of them. */
  lemma {:induction false} VenueRowPartition(rows: seq<Match>, team: string, v: Venue)
    ensures var r := VenueRow(rows, team, v); r.played == r.won + r.draw + r.lost
  {
    CountTrichotomy(VenueGames(rows, team, v), WinAt(v), DrawAt(v), LossAt(v));
  }

  /** The row's points are the sum of the points each of its matches is worth,
      and its goal difference is the sum of the per-match goal differences. */
  lemma {:induction false} VenueRowPoints(rows: seq<Match>, team: string, v: Venue)
    ensures var r := VenueRow(rows, team, v);
      && r.points == Sum(VenueGames(rows, team, v), PointsAt(v))
      && r.gd == Sum(VenueGames(rows, team, v), m => Scored(m, v) - Conceded(m, v))
  {
    var g := VenueGames(rows, team, v);
    var three: Match -> int := m => if WinAt(v)(m) then 3 else 0;
    var one: Match -> int := m => if DrawAt(v)(m) then 1 else 0;
    SumIndicator(g, WinAt(v), 3, three);
    SumIndicator(g, DrawAt(v), 1, one);
    SumAdd(g, three, one, PointsAt(v));
    SumSub(g, GoalsFor(v), GoalsAgainst(v), m => Scored(m, v) - Conceded(m, v));
  }

  /** The team's matches at venue `v` that also satisfy `p`, picked from
      the whole season. */
  function AtVenueAnd(team: string, v: Venue, p: Match -> bool): Match -> bool
  {
    m => PlaysAt(m, team, v) && p(m)
  }

  /** A column of the whole season, zero in matches `team` did not play at
      venue `v`. */
  function AtVenueCol(team: string, v: Venue, f: Match -> int): Match -> int
  {
    m => if PlaysAt(m, team, v) then f(m) else 0
  }

  /** `rate` is the per-match mean of a column totalling `total` over `n`
      matches, defined exactly when there is a match. */
  predicate IsMeanOf(rate: Option<real>, n: nat, total: int)
  {
    && (rate.Some? <==> n > 0)
    && (rate.Some? ==> rate.value * n as real == total as real)
  }

  /** A venue row's results, goals and red cards counted and summed directly
      over the whole season, picking the team's matches at that venue and
      reading its own side of each. */
  lemma {:induction false} VenueRowDirect(rows: seq<Match>, team: string, v: Venue)
    ensures var r := VenueRow(rows, team, v);
      && r.won == Count(rows, AtVenueAnd(team, v, WinAt(v)))
      && r.draw == Count(rows, AtVenueAnd(team, v, DrawAt(v)))
      && r.lost == Count(rows, AtVenueAnd(team, v, LossAt(v)))
      && r.goalsScored == Sum(rows, AtVenueCol(team, v, GoalsFor(v)))
      && r.goalsConceded == Sum(rows, AtVenueCol(team, v, GoalsAgainst(v)))
      && r.gd == r.goalsScored - r.goalsConceded
      && r.redCardsTotal == Sum(rows, AtVenueCol(team, v, OwnCol(v, RedCards)))
  {
    var q := AtVenue(team, v);
    CountFilter(rows, q, WinAt(v), AtVenueAnd(team, v, WinAt(v)));
    CountFilter(rows, q, DrawAt(v), AtVenueAnd(team, v, DrawAt(v)));
    CountFilter(rows, q, LossAt(v), AtVenueAnd(team, v, LossAt(v)));
    SumFilter(rows, q, GoalsFor(v), AtVenueCol(team, v, GoalsFor(v)));
    SumFilter(rows, q, GoalsAgainst(v), AtVenueCol(team, v, GoalsAgainst(v)));
    SumFilter(rows, q, OwnCol(v, RedCards), AtVenueCol(team, v, OwnCol(v, RedCards)));
  }

  /** A mean over the team's matches at a venue is the season total of the
      column at that venue over the number of those matches. */
  lemma {:induction false} VenueMean(rows: seq<Match>, team: string, v: Venue, f: Match -> int)
    ensures IsMeanOf(Mean(VenueGames(rows, team, v), f), Count(rows, AtVenue(team, v)), Sum(rows, AtVenueCol(team, v, f)))
  {
    var g := VenueGames(rows, team, v);
    assert |g| == Count(rows, AtVenue(team, v));
    SumFilter(rows, AtVenue(team, v), f, AtVenueCol(team, v, f));
    MeanIsMeanOf(g, f);
  }

  lemma {:induction false} MeanIsMeanOf(g: seq<Match>, f: Match -> int)
    ensures IsMeanOf(Mean(g, f), |g|, Sum(g, f))
  {
  }

  /** Every per-match rate of a venue row is the season total of its column
      at that venue over the matches played there, undefined when there are
      none. */
  lemma {:induction false} VenueRowMeans(rows: seq<Match>, team: string, v: Venue)
    ensures var r := VenueRow(rows, team, v);
      && IsMeanOf(r.goalsScoredPg, r.played, Sum(rows, AtVenueCol(team, v, GoalsFor(v))))
      && IsMeanOf(r.goalsConcededPg, r.played, Sum(rows, AtVenueCol(team, v, GoalsAgainst(v))))
      && IsMeanOf(r.cornersFor, r.played, Sum(rows, AtVenueCol(team, v, OwnCol(v, Corners))))
      && IsMeanOf(r.cornersAgainst, r.played, Sum(rows, AtVenueCol(team, v, OppCol(v, Corners))))
      && IsMeanOf(r.shotsMade, r.played, Sum(rows, AtVenueCol(team, v, OwnCol(v, Shots))))
      && IsMeanOf(r.shotsAllowed, r.played, Sum(rows, AtVenueCol(team, v, OppCol(v, Shots))))
      && IsMeanOf(r.yellowCards, r.played, Sum(rows, AtVenueCol(team, v, OwnCol(v, YellowCards))))
      && IsMeanOf(r.foulsCommitted, r.played, Sum(rows, AtVenueCol(team, v, OwnCol(v, Fouls))))
      && IsMeanOf(r.foulsSuffered, r.played, Sum(rows, AtVenueCol(team, v, OppCol(v, Fouls))))
  {
    VenueMean(rows, team, v, GoalsFor(v));
    VenueMean(rows, team, v, GoalsAgainst(v));
    VenueMean(rows, team, v, OwnCol(v, Corners));
    VenueMean(rows, team, v, OppCol(v, Corners));
    VenueMean(rows, team, v, OwnCol(v, Shots));
    VenueMean(rows, team, v, OppCol(v, Shots));
    VenueMean(rows, team, v, OwnCol(v, YellowCards));
    VenueMean(rows, team, v, OwnCol(v, Fouls));
    VenueMean(rows, team, v, OppCol(v, Fouls));
  }

  /** `q` is the ratio of two column totals `top / bottom` taken as the
      ratio of their means over `n` matches: defined exactly when there is a
      match and `bottom` is non-zero. */
  predicate IsRatioOf(q: Option<real>, n: nat, top: int, bottom: int)
  {
    && (q.Some? <==> n > 0 && bottom != 0)
    && (q.Some? ==> q.value * bottom as real == top as real)
  }

  /** Shots per goal at a venue is shots made over goals scored there (the
      matches cancel), and shots allowed per goal conceded likewise. */
  lemma {:induction false} VenueRowShotsPerGoal(rows: seq<Match>, team: string, v: Venue)
    ensures var r := VenueRow(rows, team, v);
      && IsRatioOf(r.shotsToScore, r.played, Sum(rows, AtVenueCol(team, v, OwnCol(v, Shots))), r.goalsScored)
      && IsRatioOf(r.shotsToConcede, r.played, Sum(rows, AtVenueCol(team, v, OppCol(v, Shots))), r.goalsConceded)
  {
    var g := VenueGames(rows, team, v);
    var n := Count(rows, AtVenue(team, v));
    VenueRowRatios(rows, team, v);
    VenueRowDirect(rows, team, v);
    VenueMean(rows, team, v, OwnCol(v, Shots));
    VenueMean(rows, team, v, GoalsFor(v));
    VenueMean(rows, team, v, OppCol(v, Shots));
    VenueMean(rows, team, v, GoalsAgainst(v));
    RatioOfMeans(Mean(g, OwnCol(v, Shots)), Mean(g, GoalsFor(v)), n,
                 Sum(rows, AtVenueCol(team, v, OwnCol(v, Shots))), Sum(rows, AtVenueCol(team, v, GoalsFor(v))));
    RatioOfMeans(Mean(g, OppCol(v, Shots)), Mean(g, GoalsAgainst(v)), n,
                 Sum(rows, AtVenueCol(team, v, OppCol(v, Shots))), Sum(rows, AtVenueCol(team, v, GoalsAgainst(v))));
  }

  /** The two shots-per-goal rates of a venue row are ratios of its means. */
  lemma {:induction false} VenueRowRatios(rows: seq<Match>, team: string, v: Venue)
    ensures var g, r := VenueGames(rows, team, v), VenueRow(rows, team, v);
      && r.shotsToScore == RatioOpt(Mean(g, OwnCol(v, Shots)), Mean(g, GoalsFor(v)))
      && r.shotsToConcede == RatioOpt(Mean(g, OppCol(v, Shots)), Mean(g, GoalsAgainst(v)))
  {
  }

  /** The ratio of two means over the same `n` matches is the ratio of their
      totals. */
  lemma {:induction false} RatioOfMeans(a: Option<real>, b: Option<real>, n: nat, sa: int, sb: int)
    requires IsMeanOf(a, n, sa) && IsMeanOf(b, n, sb)
    ensures IsRatioOf(RatioOpt(a, b), n, sa, sb)
  {
  }

  // ---------------------------------------------------------------------
  // The overall row against the home and away rows, and against the team's
  // matches taken together

  /** Summable fields of the overall row are home plus away; the overall row
      keeps the win/draw/loss partition, the points rule and the goal
      difference rule. */
  lemma {:induction false} OverallIsHomePlusAway(rows: seq<Match>, team: string)
    ensures var h, a, o := VenueRow(rows, team, Home), VenueRow(rows, team, Away), OverallRow(rows, team);
      && o.team == team
      && o.played == h.played + a.played
      && o.won == h.won + a.won
      && o.draw == h.draw + a.draw
      && o.lost == h.lost + a.lost
      && o.goalsScored == h.goalsScored + a.goalsScored
      && o.goalsConceded == h.goalsConceded + a.goalsConceded
      && o.gd == h.gd + a.gd
      && o.points == h.points + a.points
      && o.redCardsTotal == h.redCardsTotal + a.redCardsTotal
      && o.played == o.won + o.draw + o.lost
      && o.gd == o.goalsScored - o.goalsConceded
      && o.points == 3 * o.won + o.draw
  {
    VenueRowPartition(rows, team, Home);
    VenueRowPartition(rows, team, Away);
  }

  /** Every per-match rate of the overall row, the two shots-per-goal rates
      included, is the home and away rates weighted by matches played. */
  lemma {:induction false} OverallRatesWeighted(rows: seq<Match>, team: string)
    ensures var h, a, o := VenueRow(rows, team, Home), VenueRow(rows, team, Away), OverallRow(rows, team);
      && o.goalsScoredPg == Weighted(h.goalsScoredPg, h.played, a.goalsScoredPg, a.played)
      && o.goalsConcededPg == Weighted(h.goalsConcededPg, h.played, a.goalsConcededPg, a.played)
      && o.cornersFor == Weighted(h.cornersFor, h.played, a.cornersFor, a.played)
      && o.cornersAgainst == Weighted(h.cornersAgainst, h.played, a.cornersAgainst, a.played)
      && o.shotsMade == Weighted(h.shotsMade, h.played, a.shotsMade, a.played)
      && o.shotsAllowed == Weighted(h.shotsAllowed, h.played, a.shotsAllowed, a.played)
      && o.shotsToScore == Weighted(h.shotsToScore, h.played, a.shotsToScore, a.played)
      && o.shotsToConcede == Weighted(h.shotsToConcede, h.played, a.shotsToConcede, a.played)
      && o.yellowCards == Weighted(h.yellowCards, h.played, a.yellowCards, a.played)
      && o.foulsCommitted == Weighted(h.foulsCommitted, h.played, a.foulsCommitted, a.played)
      && o.foulsSuffered == Weighted(h.foulsSuffered, h.played, a.foulsSuffered, a.played)
  {
  }

  /** All the per-match rates of a venue row are undefined. */
  predicate NoRates(r: TeamRow)
  {
    && r.goalsScoredPg.None? && r.goalsConcededPg.None?
    && r.cornersFor.None? && r.cornersAgainst.None?
    && r.shotsMade.None? && r.shotsAllowed.None?
    && r.shotsToScore.None? && r.shotsToConcede.None?
    && r.yellowCards.None?
    && r.foulsCommitted.None? && r.foulsSuffered.None?
  }

  /** A venue where the team has no match has no rates. */
  lemma {:induction false} EmptyVenueNoRates(rows: seq<Match>, team: string, v: Venue)
    requires Count(rows, AtVenue(team, v)) == 0
    ensures NoRates(VenueRow(rows, team, v))
  {
    VenueRowMeans(rows, team, v);
    VenueRowShotsPerGoal(rows, team, v);
  }

  /** A team with no match at one of the venues has every rate of its
      overall row undefined, even though it played at the other venue: the
      empty venue's undefined rate propagates through the weighting (the
      source's NaN times 0 is still NaN). */
  lemma {:induction false} OverallRatesNeedBothVenues(rows: seq<Match>, team: string)
    requires Count(rows, AtVenue(team, Home)) == 0 || Count(rows, AtVenue(team, Away)) == 0
    ensures NoRates(OverallRow(rows, team))
  {
    if Count(rows, AtVenue(team, Home)) == 0 {
      EmptyVenueNoRates(rows, team, Home);
    } else {
      EmptyVenueNoRates(rows, team, Away);
    }
    OverallRatesWeighted(rows, team);
  }

  /** The overall table's row adds up the home and away tables' rows. */
  lemma {:induction false} ScopeRowTotals(rows: seq<Match>, team: string)
    ensures var o, h, a := ScopeRow(rows, team, OverallScope), ScopeRow(rows, team, HomeScope), ScopeRow(rows, team, AwayScope);
      && o.played == h.played + a.played
      && o.won == h.won + a.won
      && o.draw == h.draw + a.draw
      && o.lost == h.lost + a.lost
      && o.goalsScored == h.goalsScored + a.goalsScored
      && o.goalsConceded == h.goalsConceded + a.goalsConceded
      && o.points == h.points + a.points
  {
    OverallIsHomePlusAway(rows, team);
  }

  /** Every table's row keeps the win/draw/loss partition, the points rule
      and the goal-difference rule. */
  lemma {:induction false} ScopeRowRules(rows: seq<Match>, team: string, scope: Scope)
    ensures var r := ScopeRow(rows, team, scope);
      && r.team == team && r.played == r.won + r.draw + r.lost && r.points == 3 * r.won + r.draw
      && r.gd == r.goalsScored - r.goalsConceded
  {
    match scope
    case HomeScope => VenueRowPartition(rows, team, Home); VenueRowDirect(rows, team, Home);
    case AwayScope => VenueRowPartition(rows, team, Away); VenueRowDirect(rows, team, Away);
    case OverallScope => OverallIsHomePlusAway(rows, team);
  }

  /** Counting inside the team's matches at one venue, then adding the two
      venues, counts the team's matches that satisfy the combined selection. */
  lemma {:induction false} SplitCount(rows: seq<Match>, team: string, ph: Match -> bool, pa: Match -> bool, pt: Match -> bool)
    requires NoSelfMatches(rows)
    requires forall m :: m in rows ==> pt(m) == ((m.homeTeam == team && ph(m)) || (m.awayTeam == team && pa(m)))
    ensures Count(VenueGames(rows, team, Home), ph) + Count(VenueGames(rows, team, Away), pa) == Count(rows, pt)
  {
    var qh: Match -> bool := (m: Match) => m.homeTeam == team && ph(m);
    var qa: Match -> bool := (m: Match) => m.awayTeam == team && pa(m);
    CountFilter(rows, AtVenue(team, Home), ph, qh);
    CountFilter(rows, AtVenue(team, Away), pa, qa);
    forall x | x in rows ensures !(qh(x) && qa(x)) {
      var i :| 0 <= i < |rows| && rows[i] == x;
    }
    CountUnion(rows, qh, qa, pt);
  }

  /** Summing a column over the team's matches at each venue and adding the
      two sums gives the season sum of the team's own column. */
  lemma {:induction false} SplitSum(rows: seq<Match>, team: string, fh: Match -> int, fa: Match -> int)
    requires NoSelfMatches(rows)
    ensures Sum(VenueGames(rows, team, Home), fh) + Sum(VenueGames(rows, team, Away), fa)
            == Sum(rows, TeamCol(team, fh, fa))
  {
    var gh: Match -> int := (m: Match) => if m.homeTeam == team then fh(m) else 0;
    var ga: Match -> int := (m: Match) => if m.awayTeam == team then fa(m) else 0;
    SumFilter(rows, AtVenue(team, Home), fh, gh);
    SumFilter(rows, AtVenue(team, Away), fa, ga);
    forall x | x in rows ensures TeamCol(team, fh, fa)(x) == gh(x) + ga(x) {
      var i :| 0 <= i < |rows| && rows[i] == x;
    }
    SumAdd(rows, gh, ga, TeamCol(team, fh, fa));
  }

  /** The team played at home or away in every match it is in, never both. */
  lemma {:induction false} PlayedDirect(rows: seq<Match>, team: string)
    requires NoSelfMatches(rows)
    ensures |VenueGames(rows, team, Home)| + |VenueGames(rows, team, Away)| == Count(rows, InMatch(team))
  {
    var yes: Match -> bool := m => true;
    SplitCount(rows, team, yes, yes, InMatch(team));
    CountAll(VenueGames(rows, team, Home), yes);
    CountAll(VenueGames(rows, team, Away), yes);
  }

  /** Wins, draws and losses of the overall row, counted directly. */
  lemma {:induction false} ResultsDirect(rows: seq<Match>, team: string)
    requires NoSelfMatches(rows)
    ensures var o := OverallRow(rows, team);
      && o.won == Count(rows, TeamWon(team))
      && o.draw == Count(rows, TeamDrew(team))
      && o.lost == Count(rows, TeamLost(team))
  {
    SplitCount(rows, team, WinAt(Home), WinAt(Away), TeamWon(team));
    SplitCount(rows, team, DrawAt(Home), DrawAt(Away), TeamDrew(team));
    SplitCount(rows, team, LossAt(Home), LossAt(Away), TeamLost(team));
  }

  /** Goals and red cards of the overall row, summed directly. */
  lemma {:induction false} TotalsDirect(rows: seq<Match>, team: string)
    requires NoSelfMatches(rows)
    ensures var o := OverallRow(rows, team);
      && o.goalsScored == Sum(rows, TeamCol(team, GoalsFor(Home), GoalsFor(Away)))
      && o.goalsConceded == Sum(rows, TeamCol(team, GoalsAgainst(Home), GoalsAgainst(Away)))
      && o.redCardsTotal == Sum(rows, TeamCol(team, OwnCol(Home, RedCards), OwnCol(Away, RedCards)))
  {
    SplitSum(rows, team, GoalsFor(Home), GoalsFor(Away));
    SplitSum(rows, team, GoalsAgainst(Home), GoalsAgainst(Away));
    SplitSum(rows, team, OwnCol(Home, RedCards), OwnCol(Away, RedCards));
  }

  /** Points of the overall row, summed directly match by match. */
  lemma {:induction false} PointsDirect(rows: seq<Match>, team: string)
    requires NoSelfMatches(rows)
    ensures OverallRow(rows, team).points == Sum(rows, TeamPoints(team))
  {
    SplitSum(rows, team, PointsAt(Home), PointsAt(Away));
    VenueRowPoints(rows, team, Home);
    VenueRowPoints(rows, team, Away);
    OverallIsHomePlusAway(rows, team);
  }

  /** The overall row agrees with counting and summing the team's matches
      directly, from its own side at whichever venue it played. */
  lemma {:induction false} OverallMatchesDirect(rows: seq<Match>, team: string)
    requires NoSelfMatches(rows)
    ensures var o := OverallRow(rows, team);
      && o.played == Count(rows, InMatch(team))
      && o.won == Count(rows, TeamWon(team))
      && o.draw == Count(rows, TeamDrew(team))
      && o.lost == Count(rows, TeamLost(team))
      && o.goalsScored == Sum(rows, TeamCol(team, GoalsFor(Home), GoalsFor(Away)))
      && o.goalsConceded == Sum(rows, TeamCol(team, GoalsAgainst(Home), GoalsAgainst(Away)))
      && o.points == Sum(rows, TeamPoints(team))
      && o.redCardsTotal == Sum(rows, TeamCol(team, OwnCol(Home, RedCards), OwnCol(Away, RedCards)))
  {
    PlayedDirect(rows, team);
    ResultsDirect(rows, team);
    TotalsDirect(rows, team);
    PointsDirect(rows, team);
  }

  /** The play-weighted average of the two venue means of a column is the
      mean of the team's own column over all its matches. */
  lemma {:induction false} WeightedMeanIsSeasonMean(rows: seq<Match>, team: string, fh: Match -> int, fa: Match -> int)
    requires NoSelfMatches(rows)
    requires |VenueGames(rows, team, Home)| > 0 && |VenueGames(rows, team, Away)| > 0
    ensures Weighted(Mean(VenueGames(rows, team, Home), fh), |VenueGames(rows, team, Home)|,
                     Mean(VenueGames(rows, team, Away), fa), |VenueGames(rows, team, Away)|)
            == Mean(Filter(rows, InMatch(team)), TeamCol(team, fh, fa))
  {
    SeasonTotals(rows, team, fh, fa);
    WeightedOfMeans(VenueGames(rows, team, Home), fh, VenueGames(rows, team, Away), fa,
                    Filter(rows, InMatch(team)), TeamCol(team, fh, fa));
  }

  /** The team's matches, and the sum of its own column over them, are the
      home part plus the away part. */
  lemma {:induction false} SeasonTotals(rows: seq<Match>, team: string, fh: Match -> int, fa: Match -> int)
    requires NoSelfMatches(rows)
    ensures |Filter(rows, InMatch(team))| == |VenueGames(rows, team, Home)| + |VenueGames(rows, team, Away)|
    ensures Sum(Filter(rows, InMatch(team)), TeamCol(team, fh, fa))
            == Sum(VenueGames(rows, team, Home), fh) + Sum(VenueGames(rows, team, Away), fa)
  {
    var col := TeamCol(team, fh, fa);
    SplitSum(rows, team, fh, fa);
    SumFilter(rows, InMatch(team), col, col);
    PlayedDirect(rows, team);
  }

  /** Weighting each of two means by its number of matches gives the mean of
      the two selections together. */
  lemma {:induction false} WeightedOfMeans(gh: seq<Match>, fh: Match -> int, ga: seq<Match>, fa: Match -> int,
                                           all: seq<Match>, col: Match -> int)
    requires |gh| > 0 && |ga| > 0
    requires |all| == |gh| + |ga| && Sum(all, col) == Sum(gh, fh) + Sum(ga, fa)
    ensures Weighted(Mean(gh, fh), |gh|, Mean(ga, fa), |ga|) == Mean(all, col)
  {
    var mh, ma := Mean(gh, fh), Mean(ga, fa);
    var w := Weighted(mh, |gh|, ma, |ga|);
    WeightedArith(w.value, mh.value, |gh|, Sum(gh, fh), ma.value, |ga|, Sum(ga, fa));
    MeanOf(all, col, Sum(gh, fh) + Sum(ga, fa), |gh| + |ga|);
  }

  /** The mean of a non-empty selection from its sum and size. */
  lemma {:induction false} MeanOf(s: seq<Match>, f: Match -> int, total: int, n: nat)
    requires |s| == n > 0 && Sum(s, f) == total
    ensures Mean(s, f) == Some(total as real / n as real)
  {
  }

  /** Real arithmetic behind the weighted average: weighting each mean by its
      count restores the two totals. */
  lemma {:induction false} WeightedArith(w: real, mh: real, h: nat, sh: int, ma: real, a: nat, sa: int)
    requires h + a > 0
    requires mh * h as real == sh as real
    requires ma * a as real == sa as real
    requires w * (h + a) as real == mh * h as real + ma * a as real
    ensures w == (sh + sa) as real / (h + a) as real
  {
  }

  /** Each per-game rate of the overall row that is a column mean equals the
      mean of that column over all the team's matches, once the team has
      played at both venues. (With no match at one venue that venue's mean
      is undefined and so is the overall rate.) */
  lemma {:induction false} OverallRatesAreSeasonMeans(rows: seq<Match>, team: string)
    requires NoSelfMatches(rows)
    requires Count(rows, AtVenue(team, Home)) > 0 && Count(rows, AtVenue(team, Away)) > 0
    ensures var o, all := OverallRow(rows, team), Filter(rows, InMatch(team));
      && o.goalsScoredPg == Mean(all, TeamCol(team, GoalsFor(Home), GoalsFor(Away)))
      && o.goalsConcededPg == Mean(all, TeamCol(team, GoalsAgainst(Home), GoalsAgainst(Away)))
      && o.cornersFor == Mean(all, TeamCol(team, OwnCol(Home, Corners), OwnCol(Away, Corners)))
      && o.cornersAgainst == Mean(all, TeamCol(team, OppCol(Home, Corners), OppCol(Away, Corners)))
      && o.shotsMade == Mean(all, TeamCol(team, OwnCol(Home, Shots), OwnCol(Away, Shots)))
      && o.shotsAllowed == Mean(all, TeamCol(team, OppCol(Home, Shots), OppCol(Away, Shots)))
      && o.yellowCards == Mean(all, TeamCol(team, OwnCol(Home, YellowCards), OwnCol(Away, YellowCards)))
      && o.foulsCommitted == Mean(all, TeamCol(team, OwnCol(Home, Fouls), OwnCol(Away, Fouls)))
      && o.foulsSuffered == Mean(all, TeamCol(team, OppCol(Home, Fouls), OppCol(Away, Fouls)))
  {
    WeightedMeanIsSeasonMean(rows, team, GoalsFor(Home), GoalsFor(Away));
    WeightedMeanIsSeasonMean(rows, team, GoalsAgainst(Home), GoalsAgainst(Away));
    WeightedMeanIsSeasonMean(rows, team, OwnCol(Home, Corners), OwnCol(Away, Corners));
    WeightedMeanIsSeasonMean(rows, team, OppCol(Home, Corners), OppCol(Away, Corners));
    WeightedMeanIsSeasonMean(rows, team, OwnCol(Home, Shots), OwnCol(Away, Shots));
    WeightedMeanIsSeasonMean(rows, team, OppCol(Home, Shots), OppCol(Away, Shots));
    WeightedMeanIsSeasonMean(rows, team, OwnCol(Home, YellowCards), OwnCol(Away, YellowCards));
    WeightedMeanIsSeasonMean(rows, team, OwnCol(Home, Fouls), OwnCol(Away, Fouls));
    WeightedMeanIsSeasonMean(rows, team, OppCol(Home, Fouls), OppCol(Away, Fouls));
  }

  // ---------------------------------------------------------------------
  // Rows built from single matches

  /** A venue row built from a single match. */
  lemma {:induction false} SingleMatchRow(rows: seq<Match>, team: string, v: Venue, m: Match)
    requires VenueGames(rows, team, v) == [m]
    ensures var r := VenueRow(rows, team, v);
      && r.played == 1
      && r.won == (if WinAt(v)(m) then 1 else 0)
      && r.draw == (if DrawAt(v)(m) then 1 else 0)
      && r.lost == (if LossAt(v)(m) then 1 else 0)
      && r.points == 3 * r.won + r.draw
      && r.goalsScored == Scored(m, v) && r.goalsConceded == Conceded(m, v)
      && r.gd == Scored(m, v) - Conceded(m, v)
      && r.goalsScoredPg == Some(GoalsFor(v)(m) as real)
  {
    var g := VenueGames(rows, team, v);
    assert g[1..] == [];
    assert Sum(g, GoalsFor(v)) == GoalsFor(v)(m);
    assert Sum(g, GoalsAgainst(v)) == GoalsAgainst(v)(m);
  }

  /** A team whose season is one home win and one away loss: 2 played, 3
      points, and goals scored per match the midpoint of the goals it scored
      in the two matches. */
  lemma {:induction false} WinAtHomeLossAway(rows: seq<Match>, team: string, mh: Match, ma: Match)
    requires VenueGames(rows, team, Home) == [mh] && VenueGames(rows, team, Away) == [ma]
    requires mh.fthg > mh.ftag && ma.fthg > ma.ftag
    ensures var h, a, o := VenueRow(rows, team, Home), VenueRow(rows, team, Away), OverallRow(rows, team);
      && h.played == 1 && h.won == 1 && h.points == 3
      && a.played == 1 && a.lost == 1 && a.points == 0
      && o.played == 2 && o.won == 1 && o.lost == 1 && o.points == 3
      && o.goalsScoredPg == Some((mh.fthg + ma.ftag) as real / 2.0)
  {
    SingleMatchRow(rows, team, Home, mh);
    SingleMatchRow(rows, team, Away, ma);
    OverallIsHomePlusAway(rows, team);
    var h, a := VenueRow(rows, team, Home), VenueRow(rows, team, Away);
    assert OverallRow(rows, team).goalsScoredPg == Weighted(h.goalsScoredPg, h.played, a.goalsScoredPg, a.played);
    WeightedOneEach(mh.fthg as real, ma.ftag as real);
  }

  /** The weighted average of two single-match means is their midpoint. */
  lemma WeightedOneEach(x: real, y: real)
    ensures Weighted(Some(x), 1, Some(y), 1) == Some((x + y) / 2.0)
  {
  }
}
