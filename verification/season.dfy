/** The season view: the rows of the full match table that belong to one
    season, with their number. Every report reads this view and nothing else. */
module Season {
  import opened Tally
  import opened Sorting
  import opened Matches

  datatype SeasonView = SeasonView(rows: seq<Match>, season: string, numOfMatches: nat)
  {
    /** What the constructor establishes: only rows of this season, and
        `numOfMatches` is their number. */
    predicate Valid()
    {
      && numOfMatches == |rows|
      && forall i :: 0 <= i < |rows| ==> rows[i].season == season
    }
  }

  /** Keeps the rows of the full table whose season label is `season`. */
  function NewSeasonSummary(data: seq<Match>, season: string): (v: SeasonView)
    ensures v.Valid()
    ensures v.season == season
    ensures forall m :: multiset(v.rows)[m] == if m.season == season then multiset(data)[m] else 0
    ensures v.numOfMatches == Count(data, (m: Match) => m.season == season)
  {
    var rows := Filter(data, (m: Match) => m.season == season);
    SeasonView(rows, season, |rows|)
  }

  /** Filtering twice by the same season changes nothing. */
  lemma NewSeasonSummaryIdempotent(data: seq<Match>, season: string)
    ensures NewSeasonSummary(NewSeasonSummary(data, season).rows, season) == NewSeasonSummary(data, season)
  {
    var v := NewSeasonSummary(data, season);
    FilterKeepsAll(v.rows, (m: Match) => m.season == season);
  }

  /** The season view keeps the table's row order: filtering a table made
      of two parts is filtering each part and joining the results. */
  lemma {:induction false} NewSeasonSummaryKeepsOrder(a: seq<Match>, b: seq<Match>, season: string)
    ensures NewSeasonSummary(a + b, season).rows == NewSeasonSummary(a, season).rows + NewSeasonSummary(b, season).rows
  {
    FilterAppend(a, b, (m: Match) => m.season == season);
  }

  /** A one-row table keeps its row exactly when the row is of the season;
      with `NewSeasonSummaryKeepsOrder` this fixes the view's rows for every
      table. */
  lemma {:induction false} NewSeasonSummaryOneRow(m: Match, season: string)
    ensures NewSeasonSummary([m], season).rows == if m.season == season then [m] else []
  {
    assert [m][1..] == [];
  }

  /** Some match of the season has `team` on either side. */
  predicate Appears(rows: seq<Match>, team: string)
  {
    exists i :: 0 <= i < |rows| && Involves(rows[i], team)
  }

  /** Every team of the season, once each: the union of the home-team and
      away-team columns. */
  function Teams(rows: seq<Match>): (ts: seq<string>)
    ensures Distinct(ts)
    ensures forall t :: t in ts <==> Appears(rows, t)
  {
    var names := seq(|rows|, i requires 0 <= i < |rows| => rows[i].homeTeam)
               + seq(|rows|, i requires 0 <= i < |rows| => rows[i].awayTeam);
    var ts := Dedup(names);
    assert forall t :: Appears(rows, t) ==> t in names by {
      forall t | Appears(rows, t) ensures t in names {
        var i :| 0 <= i < |rows| && Involves(rows[i], t);
        if rows[i].homeTeam == t {
          assert names[i] == t;
        } else {
          assert names[|rows| + i] == t;
        }
      }
    }
    ts
  }

  /** The distinct home teams of the season in lexicographic order (the row
      and column order of the result matrix). */
  function HomeTeamsSorted(rows: seq<Match>): (ts: seq<string>)
    ensures forall i, j :: 0 <= i < j < |ts| ==> LexLe(ts[i], ts[j]) && ts[i] != ts[j]
    ensures forall t :: t in ts <==> exists i :: 0 <= i < |rows| && rows[i].homeTeam == t
  {
    var names := seq(|rows|, i requires 0 <= i < |rows| => rows[i].homeTeam);
    var ts := SortStrings(Dedup(names));
    assert forall t :: t in names <==> exists i :: 0 <= i < |rows| && rows[i].homeTeam == t by {
      forall t | exists i :: 0 <= i < |rows| && rows[i].homeTeam == t ensures t in names {
        var i :| 0 <= i < |rows| && rows[i].homeTeam == t;
        assert names[i] == t;
      }
    }
    ts
  }
}
