/** The result matrix of a season: its home teams in lexicographic order
    as rows and columns, each cell the full-time score of the row team at
    home against the column team, and a dash on the diagonal. */
module ResultMatrix {
  import opened Options
  import opened Sorting
  import opened Matches
  import opened Season

  datatype Cell = SameTeam | Score(homeGoals: nat, awayGoals: nat)

  datatype Matrix = Matrix(teams: seq<string>, cells: seq<seq<Cell>>)

  predicate IsFixture(m: Match, home: string, away: string)
  {
    m.homeTeam == home && m.awayTeam == away
  }

  /** Row `i` is the first match with `home` at home against `away`. */
  predicate FirstFixtureAt(rows: seq<Match>, home: string, away: string, i: int)
  {
    && 0 <= i < |rows|
    && IsFixture(rows[i], home, away)
    && forall j :: 0 <= j < i ==> !IsFixture(rows[j], home, away)
  }

  /** Cell `c` shows the score of the first match of `home` at home against
      `away`. */
  predicate ScoreOfFirstFixture(rows: seq<Match>, home: string, away: string, c: Cell)
  {
    exists k :: 0 <= k < |rows| && FirstFixtureAt(rows, home, away, k) && c == Score(rows[k].fthg, rows[k].ftag)
  }

  /** The first match of `home` at home against `away`, if they met. */
  function FindFixture(rows: seq<Match>, home: string, away: string): (r: Option<Match>)
    ensures r.Some? <==> exists i :: 0 <= i < |rows| && IsFixture(rows[i], home, away)
    ensures r.Some? ==> exists i :: FirstFixtureAt(rows, home, away, i) && rows[i] == r.value
  {
    if |rows| == 0 then None
    else if IsFixture(rows[0], home, away) then
      assert FirstFixtureAt(rows, home, away, 0);
      Some(rows[0])
    else
      var r := FindFixture(rows[1..], home, away);
      assert forall i :: 1 <= i < |rows| ==> rows[i] == rows[1..][i - 1];
      if r.Some? then
        var i :| FirstFixtureAt(rows[1..], home, away, i) && rows[1..][i] == r.value;
        assert FirstFixtureAt(rows, home, away, i + 1);
        r
      else
        r
  }

  /** Every ordered pair of different teams has met. */
  predicate FixturesComplete(rows: seq<Match>, ts: seq<string>)
  {
    forall i, j :: 0 <= i < |ts| && 0 <= j < |ts| && ts[i] != ts[j] ==> FindFixture(rows, ts[i], ts[j]).Some?
  }

  function CellFor(rows: seq<Match>, team: string, opponent: string): Cell
    requires team != opponent ==> FindFixture(rows, team, opponent).Some?
  {
    if team == opponent then SameTeam
    else
      var m := FindFixture(rows, team, opponent).value;
      Score(m.fthg, m.ftag)
  }

  /** The grid of cells for teams `ts`, row team at home. */
  function Grid(rows: seq<Match>, ts: seq<string>): seq<seq<Cell>>
    requires FixturesComplete(rows, ts)
  {
    seq(|ts|, i requires 0 <= i < |ts| =>
      seq(|ts|, j requires 0 <= j < |ts| => CellFor(rows, ts[i], ts[j])))
  }

  /** The result matrix; the source fails (an index error) when some pair of
      home teams never met with the row team at home. */
  function GetResultMatrix(v: SeasonView): (r: Option<Matrix>)
    ensures r.Some? <==> FixturesComplete(v.rows, HomeTeamsSorted(v.rows))
    ensures r.Some? ==>
      var ts, cells := r.value.teams, r.value.cells;
      && (forall t :: t in ts <==> exists k :: 0 <= k < |v.rows| && v.rows[k].homeTeam == t)
      && (forall i, j :: 0 <= i < j < |ts| ==> LexLe(ts[i], ts[j]) && ts[i] != ts[j])
      && |cells| == |ts|
      && (forall i :: 0 <= i < |ts| ==> |cells[i]| == |ts|)
      && (forall i, j :: 0 <= i < |ts| && 0 <= j < |ts| ==> (cells[i][j] == SameTeam <==> i == j))
      && (forall i, j :: 0 <= i < |ts| && 0 <= j < |ts| && i != j ==>
            ScoreOfFirstFixture(v.rows, ts[i], ts[j], cells[i][j]))
  {
    var ts := HomeTeamsSorted(v.rows);
    if !FixturesComplete(v.rows, ts) then None
    else
      GridCells(v.rows, ts);
      Some(Matrix(ts, Grid(v.rows, ts)))
  }

  /** For distinct teams, the diagonal is exactly the dashes and every other
      cell is the score of the first fixture of its pair. */
  lemma GridCells(rows: seq<Match>, ts: seq<string>)
    requires forall i, j :: 0 <= i < j < |ts| ==> ts[i] != ts[j]
    requires FixturesComplete(rows, ts)
    ensures var cells := Grid(rows, ts);
      && |cells| == |ts|
      && (forall i :: 0 <= i < |ts| ==> |cells[i]| == |ts|)
      && (forall i, j :: 0 <= i < |ts| && 0 <= j < |ts| ==> (cells[i][j] == SameTeam <==> i == j))
      && (forall i, j :: 0 <= i < |ts| && 0 <= j < |ts| && i != j ==>
            ScoreOfFirstFixture(rows, ts[i], ts[j], cells[i][j]))
  {
    var cells := Grid(rows, ts);
    forall i, j | 0 <= i < |ts| && 0 <= j < |ts| && i != j
      ensures ts[i] != ts[j]
    {
      if i > j {
        assert ts[j] != ts[i];
      }
    }
    forall i, j | 0 <= i < |ts| && 0 <= j < |ts| && i != j
      ensures ScoreOfFirstFixture(rows, ts[i], ts[j], cells[i][j])
    {
      var m := FindFixture(rows, ts[i], ts[j]).value;
      var k :| FirstFixtureAt(rows, ts[i], ts[j], k) && rows[k] == m;
      assert cells[i][j] == Score(rows[k].fthg, rows[k].ftag);
    }
  }

  /** When a pair met exactly once with the row team at home, its cell is
      that match's score. */
  lemma {:induction false} CellIsTheFixture(v: SeasonView, i: nat, j: nat, k: nat)
    requires GetResultMatrix(v).Some?
    requires var ts := GetResultMatrix(v).value.teams; i < |ts| && j < |ts| && i != j
    requires var ts := GetResultMatrix(v).value.teams;
      k < |v.rows| && IsFixture(v.rows[k], ts[i], ts[j])
    requires var ts := GetResultMatrix(v).value.teams;
      forall k' :: 0 <= k' < |v.rows| && IsFixture(v.rows[k'], ts[i], ts[j]) ==> k' == k
    ensures GetResultMatrix(v).value.cells[i][j] == Score(v.rows[k].fthg, v.rows[k].ftag)
  {
  }
}
