/** One played match, as a row of the season data: the two team names,
    full-time and half-time goals, the stored full-time result code, the
    per-side statistics and the season label. */
module Matches {

  /** One side's statistics in a match: corners (HC/AC), shots (HS/AS),
      shots on target (HST/AST), yellow cards (HY/AY), red cards (HR/AR)
      and fouls committed (HF/AF). */
  datatype SideStats = SideStats(
    corners: nat,
    shots: nat,
    shotsOnTarget: nat,
    yellowCards: nat,
    redCards: nat,
    fouls: nat)

  datatype Match = Match(
    homeTeam: string,
    awayTeam: string,
    fthg: nat,          // full-time home goals
    ftag: nat,          // full-time away goals
    hthg: nat,          // half-time home goals
    htag: nat,          // half-time away goals
    ftr: char,          // stored full-time result code, 'H', 'D' or 'A'
    home: SideStats,
    away: SideStats,
    season: string)

  /** Which side of a match a team row is built from. */
  datatype Venue = Home | Away

  /** The per-side statistics a report can select. */
  datatype Stat = Corners | Shots | ShotsOnTarget | YellowCards | RedCards | Fouls

  function StatValue(s: SideStats, st: Stat): nat
  {
    match st
    case Corners => s.corners
    case Shots => s.shots
    case ShotsOnTarget => s.shotsOnTarget
    case YellowCards => s.yellowCards
    case RedCards => s.redCards
    case Fouls => s.fouls
  }

  /** The result code the full-time goals determine. */
  function ResultCode(m: Match): char
  {
    if m.fthg > m.ftag then 'H' else if m.fthg == m.ftag then 'D' else 'A'
  }

  /** The stored result code agrees with the goal columns. */
  predicate CodeConsistent(m: Match)
  {
    m.ftr == ResultCode(m)
  }

  /** The team playing at venue `v` in match `m` is `team`. */
  predicate PlaysAt(m: Match, team: string, v: Venue)
  {
    match v
    case Home => m.homeTeam == team
    case Away => m.awayTeam == team
  }

  predicate Involves(m: Match, team: string)
  {
    m.homeTeam == team || m.awayTeam == team
  }

  /** Goals scored by the side at venue `v`. */
  function Scored(m: Match, v: Venue): nat
  {
    match v
    case Home => m.fthg
    case Away => m.ftag
  }

  /** Goals conceded by the side at venue `v`. */
  function Conceded(m: Match, v: Venue): nat
  {
    match v
    case Home => m.ftag
    case Away => m.fthg
  }

  /** Statistics of the side at venue `v`. */
  function Own(m: Match, v: Venue): SideStats
  {
    match v
    case Home => m.home
    case Away => m.away
  }

  /** Statistics of the opponent of the side at venue `v`. */
  function Opp(m: Match, v: Venue): SideStats
  {
    match v
    case Home => m.away
    case Away => m.home
  }

  /** The venue at which `team` plays in a match that involves it. */
  function VenueOf(m: Match, team: string): Venue
  {
    if m.homeTeam == team then Home else Away
  }

  /** No team plays itself. */
  predicate NoSelfMatches(rows: seq<Match>)
  {
    forall i :: 0 <= i < |rows| ==> rows[i].homeTeam != rows[i].awayTeam
  }
}
