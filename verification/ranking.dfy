/** Ranking of a league table: a composite key that encodes the tie-break
    order points, goal difference, goals scored; a dense rank, highest key
    first; rows listed by ascending rank. */
module Ranking {
  import opened Options
  import opened Tally
  import opened Sorting
  import opened Matches
  import opened TeamRows

  /** The composite ranking key of a row. */
  function RankPoints(r: TeamRow): int
  {
    r.points * 1_000_000 + r.gd * 1000 + r.goalsScored
  }

  /** The distinct keys of a table. */
  function KeySet(rows: seq<TeamRow>): set<int>
  {
    set i | 0 <= i < |rows| :: RankPoints(rows[i])
  }

  /** Dense rank of key `k` among `keys`, highest first: one more than the
      number of distinct keys above it, so tied keys share a rank and the
      next distinct key takes the following rank. */
  function DenseRank(keys: set<int>, k: int): nat
  {
    |set x | x in keys && x > k| + 1
  }

  datatype RankedRow = RankedRow(row: TeamRow, rankPoints: int, rank: nat)

  predicate RankLe(x: RankedRow, y: RankedRow)
  {
    x.rank <= y.rank
  }

  /** Each row with its key and its dense rank, in input order. */
  function Annotate(rows: seq<TeamRow>): seq<RankedRow>
  {
    seq(|rows|, i requires 0 <= i < |rows| =>
      RankedRow(rows[i], RankPoints(rows[i]), DenseRank(KeySet(rows), RankPoints(rows[i]))))
  }

  /** The ranked table: every row with its key and dense rank, listed by
      ascending rank. */
  function RankTable(rows: seq<TeamRow>): (t: seq<RankedRow>)
    ensures multiset(t) == multiset(Annotate(rows))
    ensures forall i, j :: 0 <= i < j < |t| ==> t[i].rank <= t[j].rank
  {
    assert IsTotalPreorder(RankLe);
    SortBy(Annotate(rows), RankLe)
  }

  // ---------------------------------------------------------------------
  // The composite key

  /** Within realistic bounds (goals scored below 1000, goal difference
      below 500 in magnitude) a larger key means more points, or equal
      points and a better goal difference, or both equal and more goals. */
  lemma KeyIsLexicographic(a: TeamRow, b: TeamRow)
    requires 0 <= a.goalsScored < 1000 && 0 <= b.goalsScored < 1000
    requires -500 < a.gd < 500 && -500 < b.gd < 500
    ensures RankPoints(a) > RankPoints(b) <==>
      || a.points > b.points
      || (a.points == b.points && a.gd > b.gd)
      || (a.points == b.points && a.gd == b.gd && a.goalsScored > b.goalsScored)
  {
    var d := (a.gd - b.gd) * 1000 + (a.goalsScored - b.goalsScored);
    assert -1_000_000 < d < 1_000_000;
    assert RankPoints(a) - RankPoints(b) == (a.points - b.points) * 1_000_000 + d;
    if a.points > b.points {
      assert (a.points - b.points) * 1_000_000 >= 1_000_000;
    } else if a.points < b.points {
      assert (a.points - b.points) * 1_000_000 <= -1_000_000;
    }
  }

  /** Outside those bounds the key can put a team with fewer points first.
      In a home table where A's only home match is a 0-0 draw and B's only
      home match is lost 1001001-1001002, A has 1 point and B none, but B's
      key (1000001) is above A's (1000000). */
  lemma KeyCanInvertPoints()
    ensures exists rows: seq<Match> ::
      var a, b := VenueRow(rows, "A", Home), VenueRow(rows, "B", Home);
      a.points > b.points && RankPoints(a) < RankPoints(b)
  {
    var s := SideStats(0, 0, 0, 0, 0, 0);
    var ma := Match("A", "C", 0, 0, 0, 0, 'D', s, s, "S");
    var mb := Match("B", "C", 1_001_001, 1_001_002, 0, 0, 'A', s, s, "S");
    TwoHomeMatches(ma, mb);
    KeyInversion([ma, mb], ma, mb);
  }

  /** Two matches with different home sides: each side's home games are its
      own match. */
  lemma {:induction false} TwoHomeMatches(ma: Match, mb: Match)
    requires ma.homeTeam != mb.homeTeam
    ensures VenueGames([ma, mb], ma.homeTeam, Home) == [ma]
    ensures VenueGames([ma, mb], mb.homeTeam, Home) == [mb]
  {
    var rows := [ma, mb];
    assert rows[1..] == [mb] && rows[1..][1..] == [];
  }

  /** The two single-match home rows behind `KeyCanInvertPoints`. */
  lemma {:induction false} KeyInversion(rows: seq<Match>, ma: Match, mb: Match)
    requires VenueGames(rows, "A", Home) == [ma] && VenueGames(rows, "B", Home) == [mb]
    requires ma.fthg == 0 && ma.ftag == 0
    requires mb.fthg == 1_001_001 && mb.ftag == 1_001_002
    ensures var a, b := VenueRow(rows, "A", Home), VenueRow(rows, "B", Home);
      a.points > b.points && RankPoints(a) < RankPoints(b)
  {
    SingleMatchRow(rows, "A", Home, ma);
    SingleMatchRow(rows, "B", Home, mb);
    var a, b := VenueRow(rows, "A", Home), VenueRow(rows, "B", Home);
    assert a.points == 1 && a.gd == 0 && a.goalsScored == 0;
    assert b.points == 0 && b.gd == -1 && b.goalsScored == 1_001_001;
  }

  // ---------------------------------------------------------------------
  // Dense rank

  lemma {:induction false} SubsetCard(a: set<int>, b: set<int>)
    requires a <= b
    ensures |a| <= |b|
  {
    assert b == a + (b - a);
  }

  /** A key no smaller than another never ranks below it. */
  lemma DenseRankAntitone(keys: set<int>, a: int, b: int)
    requires a >= b
    ensures DenseRank(keys, a) <= DenseRank(keys, b)
  {
    SubsetCard(set x | x in keys && x > a, set x | x in keys && x > b);
  }

  /** A key of the table strictly above another ranks strictly above it. */
  lemma DenseRankStrict(keys: set<int>, a: int, b: int)
    requires a in keys && a > b
    ensures DenseRank(keys, a) < DenseRank(keys, b)
  {
    var above := set x | x in keys && x > a;
    SubsetCard(above + {a}, set x | x in keys && x > b);
    assert a !in above;
  }

  /** Two keys of the table: the larger has the smaller rank, equal keys
      have equal ranks, and conversely. */
  lemma DenseRankIff(keys: set<int>, a: int, b: int)
    requires a in keys && b in keys
    ensures a > b <==> DenseRank(keys, a) < DenseRank(keys, b)
    ensures a == b <==> DenseRank(keys, a) == DenseRank(keys, b)
  {
    if a > b {
      DenseRankStrict(keys, a, b);
    } else if b > a {
      DenseRankStrict(keys, b, a);
    }
  }

  /** The largest key has rank 1. */
  lemma DenseRankTop(keys: set<int>, k: int)
    requires forall x :: x in keys ==> x <= k
    ensures DenseRank(keys, k) == 1
  {
    assert (set x | x in keys && x > k) == {};
  }

  /** The next distinct key below `a` has exactly the rank after `a`'s. */
  lemma DenseRankNext(keys: set<int>, a: int, b: int)
    requires a in keys && a > b
    requires forall x :: x in keys && b < x ==> a <= x
    ensures DenseRank(keys, b) == DenseRank(keys, a) + 1
  {
    var above := set x | x in keys && x > a;
    assert (set x | x in keys && x > b) == above + {a};
    assert a !in above;
  }

  /** Ranks run from 1 to the number of distinct keys. */
  lemma DenseRankBound(keys: set<int>, k: int)
    requires k in keys
    ensures 1 <= DenseRank(keys, k) <= |keys|
  {
    SubsetCard((set x | x in keys && x > k) + {k}, keys);
  }

  // ---------------------------------------------------------------------
  // The ranked table

  /** Every entry of the ranked table is an input row with its key and its
      dense rank, and every input row appears in it. */
  lemma {:induction false} RankTableEntries(rows: seq<TeamRow>)
    ensures var t := RankTable(rows);
      && |t| == |rows|
      && (forall i :: 0 <= i < |t| ==>
            && t[i].row in rows
            && t[i].rankPoints == RankPoints(t[i].row)
            && t[i].rankPoints in KeySet(rows)
            && t[i].rank == DenseRank(KeySet(rows), t[i].rankPoints))
      && (forall j :: 0 <= j < |rows| ==> exists i :: 0 <= i < |t| && t[i].row == rows[j])
  {
    var t, a := RankTable(rows), Annotate(rows);
    assert |t| == |a| by {
      assert |multiset(t)| == |multiset(a)|;
    }
    forall i | 0 <= i < |t|
      ensures && t[i].row in rows
              && t[i].rankPoints == RankPoints(t[i].row)
              && t[i].rankPoints in KeySet(rows)
              && t[i].rank == DenseRank(KeySet(rows), t[i].rankPoints)
    {
      assert t[i] in multiset(a);
      var j :| 0 <= j < |a| && a[j] == t[i];
    }
    forall j | 0 <= j < |rows| ensures exists i :: 0 <= i < |t| && t[i].row == rows[j] {
      assert a[j] in multiset(t);
      var i :| 0 <= i < |t| && t[i] == a[j];
    }
  }

  /** The entries' keys are exactly the rows' keys. */
  lemma {:induction false} RankTableKeys(rows: seq<TeamRow>)
    ensures var t := RankTable(rows);
      && (forall k :: k in KeySet(rows) ==> exists i :: 0 <= i < |t| && t[i].rankPoints == k)
      && (forall i :: 0 <= i < |t| ==> t[i].rankPoints in KeySet(rows))
  {
    var t := RankTable(rows);
    RankTableEntries(rows);
    forall k | k in KeySet(rows) ensures exists i :: 0 <= i < |t| && t[i].rankPoints == k {
      var j :| 0 <= j < |rows| && RankPoints(rows[j]) == k;
      var i :| 0 <= i < |t| && t[i].row == rows[j];
    }
  }

  /** Along the table keys never increase; a larger key means a smaller
      rank and equal keys mean equal ranks, in both directions. */
  lemma {:induction false} RankTableOrder(rows: seq<TeamRow>)
    ensures var t := RankTable(rows);
      && (forall i, j :: 0 <= i < |t| && 0 <= j < |t| ==>
            (t[i].rankPoints > t[j].rankPoints <==> t[i].rank < t[j].rank))
      && (forall i, j :: 0 <= i < |t| && 0 <= j < |t| ==>
            (t[i].rankPoints == t[j].rankPoints <==> t[i].rank == t[j].rank))
      && (forall i, j :: 0 <= i < j < |t| ==> t[i].rankPoints >= t[j].rankPoints)
  {
    var t := RankTable(rows);
    RankTableEntries(rows);
    forall i, j | 0 <= i < |t| && 0 <= j < |t|
      ensures t[i].rankPoints > t[j].rankPoints <==> t[i].rank < t[j].rank
      ensures t[i].rankPoints == t[j].rankPoints <==> t[i].rank == t[j].rank
    {
      DenseRankIff(KeySet(rows), t[i].rankPoints, t[j].rankPoints);
    }
  }

  /** `t` lists entries whose keys are exactly `keys`, each with its dense
      rank among them, by ascending rank. */
  ghost predicate RankedOver(t: seq<RankedRow>, keys: set<int>)
  {
    && (forall i :: 0 <= i < |t| ==> t[i].rankPoints in keys && t[i].rank == DenseRank(keys, t[i].rankPoints))
    && (forall k :: k in keys ==> exists i :: 0 <= i < |t| && t[i].rankPoints == k)
    && (forall i, j :: 0 <= i < j < |t| ==> t[i].rank <= t[j].rank)
  }

  lemma {:induction false} RankTableIsRankedOver(rows: seq<TeamRow>)
    ensures RankedOver(RankTable(rows), KeySet(rows))
  {
    RankTableEntries(rows);
    RankTableKeys(rows);
  }

  /** The first entry of a ranked listing has rank 1. */
  lemma {:induction false} FirstRankIsOne(t: seq<RankedRow>, keys: set<int>)
    requires RankedOver(t, keys) && |t| > 0
    ensures t[0].rank == 1
  {
    var top := Max(t, (e: RankedRow) => e.rankPoints);
    var m :| 0 <= m < |t| && t[m].rankPoints == top;
    forall x | x in keys ensures x <= top {
      var i :| 0 <= i < |t| && t[i].rankPoints == x;
    }
    DenseRankTop(keys, top);
    assert t[0].rank <= t[m].rank;
  }

  /** In a ranked listing consecutive entries have the same rank or
      consecutive ranks. */
  lemma {:induction false} NoRankSkipped(t: seq<RankedRow>, keys: set<int>, i: int)
    requires RankedOver(t, keys) && 0 < i < |t|
    ensures t[i].rank == t[i - 1].rank || t[i].rank == t[i - 1].rank + 1
  {
    var a, b := t[i - 1].rankPoints, t[i].rankPoints;
    if a != b {
      if a < b {
        DenseRankStrict(keys, b, a);
        assert false;
      }
      forall x | x in keys && b < x ensures a <= x {
        var m :| 0 <= m < |t| && t[m].rankPoints == x;
        if x < a {
          if m <= i - 1 {
            DenseRankStrict(keys, a, x);
            assert false;
          } else {
            DenseRankStrict(keys, x, b);
            assert false;
          }
        }
      }
      DenseRankNext(keys, a, b);
    }
  }

  /** The first entry has rank 1, and each entry's rank is its
      predecessor's or the one after it: no rank is skipped. */
  lemma {:induction false} RankTableDense(rows: seq<TeamRow>)
    ensures var t := RankTable(rows);
      && (|t| > 0 ==> t[0].rank == 1)
      && (forall i :: 0 < i < |t| ==> t[i].rank == t[i - 1].rank || t[i].rank == t[i - 1].rank + 1)
  {
    var t := RankTable(rows);
    RankTableIsRankedOver(rows);
    if |t| > 0 {
      FirstRankIsOne(t, KeySet(rows));
    }
    forall i | 0 < i < |t| ensures t[i].rank == t[i - 1].rank || t[i].rank == t[i - 1].rank + 1 {
      NoRankSkipped(t, KeySet(rows), i);
    }
  }
}
