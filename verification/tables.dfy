/** The home, away and overall league tables of a season, the choice among
    them by name, and looking up one team's entry. */
module Tables {
  import opened Options
  import opened Sorting
  import opened Matches
  import opened Season
  import opened TeamRows
  import opened Ranking

  /** One row per team of the season for the table of `scope`, before ranking. */
  function ScopeRows(rows: seq<Match>, scope: Scope): seq<TeamRow>
  {
    var ts := Teams(rows);
    seq(|ts|, i requires 0 <= i < |ts| => ScopeRow(rows, ts[i], scope))
  }

  /** The ranked table of `scope`. */
  function Table(rows: seq<Match>, scope: Scope): seq<RankedRow>
  {
    RankTable(ScopeRows(rows, scope))
  }

  /** The table names the source accepts. */
  function ParseScope(tableType: string): Option<Scope>
  {
    if tableType == "home" then Some(HomeScope)
    else if tableType == "away" then Some(AwayScope)
    else if tableType == "overall" then Some(OverallScope)
    else None
  }

  /** The league table named `tableType`; any other name gives no table (the
      source returns 0). */
  function CalcMainTables(v: SeasonView, tableType: string := "overall"): (r: Option<seq<RankedRow>>)
    ensures r.None? <==> tableType != "home" && tableType != "away" && tableType != "overall"
    ensures tableType == "home" ==> r == Some(Table(v.rows, HomeScope))
    ensures tableType == "away" ==> r == Some(Table(v.rows, AwayScope))
    ensures tableType == "overall" ==> r == Some(Table(v.rows, OverallScope))
    ensures r.Some? ==> |r.value| == |Teams(v.rows)|
    ensures r.Some? ==> forall team :: Appears(v.rows, team) <==> exists i :: 0 <= i < |r.value| && r.value[i].row.team == team
  {
    match ParseScope(tableType)
    case None => None
    case Some(scope) =>
      TableTeams(v.rows, scope);
      Some(Table(v.rows, scope))
  }

  /** Without a table name the overall table is returned. */
  lemma CalcMainTablesDefault(v: SeasonView)
    ensures CalcMainTables(v) == Some(Table(v.rows, OverallScope))
  {
  }

  /** A table's entry for `team`, the first one found; undefined when the
      team has no row. */
  function Lookup(t: seq<RankedRow>, team: string): (r: Option<RankedRow>)
    ensures r.Some? <==> exists i :: 0 <= i < |t| && t[i].row.team == team
    ensures r.Some? ==> r.value in t && r.value.row.team == team
  {
    if |t| == 0 then None
    else if t[0].row.team == team then Some(t[0])
    else
      assert forall i :: 1 <= i < |t| ==> t[i] == t[1..][i - 1];
      Lookup(t[1..], team)
  }

  // ---------------------------------------------------------------------
  // Lemmas

  /** The row builder of a scope: the row of `team` for that scope. */
  function ScopeFn(rows: seq<Match>, scope: Scope): string -> TeamRow
  {
    team => ScopeRow(rows, team, scope)
  }

  /** Rows built by `f` for each name in `ts`. */
  function RowsOf(ts: seq<string>, f: string -> TeamRow): seq<TeamRow>
  {
    seq(|ts|, i requires 0 <= i < |ts| => f(ts[i]))
  }

  lemma ScopeRowsAreRowsOf(rows: seq<Match>, scope: Scope)
    ensures ScopeRows(rows, scope) == RowsOf(Teams(rows), ScopeFn(rows, scope))
    ensures forall team :: ScopeFn(rows, scope)(team).team == team
  {
  }

  /** Ranking rows built one per name by a builder that keeps the name:
      each entry is its own name's row with its dense rank. */
  lemma {:induction false} RankedRowsEntries(ts: seq<string>, f: string -> TeamRow)
    requires forall team :: f(team).team == team
    ensures var srs := RowsOf(ts, f); var t := RankTable(srs);
      && |t| == |ts|
      && (forall i :: 0 <= i < |t| ==>
            && t[i].row.team in ts
            && t[i].row == f(t[i].row.team)
            && t[i].rankPoints == RankPoints(t[i].row)
            && t[i].rank == DenseRank(KeySet(srs), RankPoints(t[i].row)))
  {
    var srs := RowsOf(ts, f);
    var t := RankTable(srs);
    RankTableEntries(srs);
    forall i | 0 <= i < |t| ensures t[i].row.team in ts && t[i].row == f(t[i].row.team) {
      var p :| 0 <= p < |srs| && srs[p] == t[i].row;
      assert ts[p] in ts;
    }
  }

  /** Every name has an entry in the table of rows built one per name. */
  lemma {:induction false} RankedRowsCover(ts: seq<string>, f: string -> TeamRow)
    requires forall team :: f(team).team == team
    ensures var t := RankTable(RowsOf(ts, f));
      forall team :: team in ts <==> exists i :: 0 <= i < |t| && t[i].row.team == team
  {
    var srs := RowsOf(ts, f);
    var t := RankTable(srs);
    RankTableEntries(srs);
    RankedRowsEntries(ts, f);
    forall team | team in ts ensures exists i :: 0 <= i < |t| && t[i].row.team == team {
      var p :| 0 <= p < |ts| && ts[p] == team;
      var i :| 0 <= i < |t| && t[i].row == srs[p];
    }
  }

  /** Rows built one per distinct name give a table with one entry per name. */
  lemma {:induction false} RankedRowsDistinct(ts: seq<string>, f: string -> TeamRow)
    requires Distinct(ts)
    requires forall team :: f(team).team == team
    ensures var t := RankTable(RowsOf(ts, f));
      forall i, j :: 0 <= i < j < |t| ==> t[i].row.team != t[j].row.team
  {
    var srs := RowsOf(ts, f);
    var t := RankTable(srs);
    var a := Annotate(srs);
    forall p, q | 0 <= p < q < |a| ensures a[p] != a[q] {
      assert a[p].row.team == ts[p];
      assert a[q].row.team == ts[q];
    }
    DistinctPermutation(a, t);
    RankedRowsEntries(ts, f);
    forall i, j | 0 <= i < j < |t| ensures t[i].row.team != t[j].row.team {
      if t[i].row.team == t[j].row.team {
        assert false;
      }
    }
  }

  /** A table has exactly one entry per team of the season, and every entry
      is the row of its own team for that scope with its dense rank. */
  lemma {:induction false} TableTeams(rows: seq<Match>, scope: Scope)
    ensures var t := Table(rows, scope);
      && |t| == |Teams(rows)|
      && (forall i :: 0 <= i < |t| ==>
            && Appears(rows, t[i].row.team)
            && t[i].row == ScopeFn(rows, scope)(t[i].row.team)
            && t[i].rank == DenseRank(KeySet(ScopeRows(rows, scope)), RankPoints(t[i].row)))
      && (forall team :: Appears(rows, team) <==> exists i :: 0 <= i < |t| && t[i].row.team == team)
      && (forall i, j :: 0 <= i < j < |t| ==> t[i].row.team != t[j].row.team)
  {
    ScopeRowsAreRowsOf(rows, scope);
    RankedRowsEntries(Teams(rows), ScopeFn(rows, scope));
    RankedRowsCover(Teams(rows), ScopeFn(rows, scope));
    RankedRowsDistinct(Teams(rows), ScopeFn(rows, scope));
  }

  /** Looking a team up in a table finds it exactly when the team played in
      the season, and then finds its row for that scope with its dense rank. */
  lemma {:induction false} TableLookup(rows: seq<Match>, scope: Scope, team: string)
    ensures var r := Lookup(Table(rows, scope), team);
      && (r.Some? <==> Appears(rows, team))
      && (r.Some? ==> r.value.row == ScopeRow(rows, team, scope))
      && (r.Some? ==> r.value.rank == DenseRank(KeySet(ScopeRows(rows, scope)), RankPoints(r.value.row)))
  {
    TableTeams(rows, scope);
  }
}
