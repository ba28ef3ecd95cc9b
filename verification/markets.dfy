/** The betting-market reports of a season: the full-time result split, the
    spread of exact scorelines with its "4+" remainder, and the under/over
    total-goals markets. Each line counts matches out of a base; its share
    in percent and its fair odds (100 over the share) follow from the two. */
module Markets {
  import opened Options
  import opened Tally
  import opened Matches
  import opened Season

  /** What a market line counts. `Under(l)` and `Over(l)` are the lines at
      `l + 0.5` total goals; the last three are the full-time results. */
  datatype Market =
    | Scoreline(homeGoals: nat, awayGoals: nat)
    | FourPlus
    | Under(line: nat)
    | Over(line: nat)
    | HomeWin
    | Draw
    | AwayWin

  /** A market line: `count` matches out of `base`. */
  datatype MarketRow = MarketRow(market: Market, count: nat, base: nat)

  /** The share of a line in percent; undefined over an empty base (the
      source divides by zero there). */
  function Share(row: MarketRow): (r: Option<real>)
    ensures r.Some? <==> row.base > 0
    ensures r.Some? ==> r.value * (row.base as real) == (row.count as real) * 100.0
  {
    if row.base == 0 then None else Some((row.count as real) / (row.base as real) * 100.0)
  }

  /** Fair odds of a line: 100 over its share, undefined for an undefined or
      zero share. */
  function FairOdds(row: MarketRow): (r: Option<real>)
    ensures r.Some? ==> Share(row).Some? && r.value * Share(row).value == 100.0
  {
    match Share(row)
    case None => None
    case Some(p) => Quotient(100.0, p)
  }

  function RowCount(row: MarketRow): int
  {
    row.count
  }

  // ---------------------------------------------------------------------
  // Full-time results

  function HasCode(c: char): Match -> bool
  {
    (m: Match) => m.ftr == c
  }

  /** The matches whose stored full-time result code is `c`. */
  function CodeCount(rows: seq<Match>, c: char): nat
  {
    Count(rows, HasCode(c))
  }

  /** Home wins, draws and away wins by the stored code. The shares are
      taken over the three counts together, so a match with any other code
      is in no line and in no base. */
  function SummaryFtResults(v: SeasonView): (r: seq<MarketRow>)
    ensures |r| == 3
    ensures r[0].market == HomeWin && r[1].market == Draw && r[2].market == AwayWin
    ensures r[0].count == CodeCount(v.rows, 'H')
    ensures r[1].count == CodeCount(v.rows, 'D')
    ensures r[2].count == CodeCount(v.rows, 'A')
    ensures forall i :: 0 <= i < 3 ==> r[i].base == r[0].count + r[1].count + r[2].count
  {
    var h, d, a := CodeCount(v.rows, 'H'), CodeCount(v.rows, 'D'), CodeCount(v.rows, 'A');
    [MarketRow(HomeWin, h, h + d + a), MarketRow(Draw, d, h + d + a), MarketRow(AwayWin, a, h + d + a)]
  }

  // ---------------------------------------------------------------------
  // Goal spread

  function ScoreIs(h: nat, a: nat): Match -> bool
  {
    (m: Match) => m.fthg == h && m.ftag == a
  }

  /** Matches in which at least one side scored four or more. */
  function FourOrMore(): Match -> bool
  {
    (m: Match) => m.fthg >= 4 || m.ftag >= 4
  }

  /** Index of a match's scoreline among the sixteen "h-a" lines, or 16 for
      the "4+" remainder. */
  function Bucket(m: Match): nat
  {
    if m.fthg <= 3 && m.ftag <= 3 then 4 * m.fthg + m.ftag else 16
  }

  /** The `k`-th scoreline line, for score `k / 4` - `k % 4`. */
  function SpreadLine(rows: seq<Match>, k: nat): MarketRow
  {
    MarketRow(Scoreline(k / 4, k % 4), Count(rows, ScoreIs(k / 4, k % 4)), |rows|)
  }

  /** The sixteen scoreline lines in order; their counts add up to the
      season's matches with at most three goals on each side. */
  method ScorelineLines(rows: seq<Match>) returns (r: seq<MarketRow>)
    ensures |r| == 16 && forall j :: 0 <= j < 16 ==> r[j] == SpreadLine(rows, j)
    ensures Sum(r, RowCount) == BucketTotal(rows, Bucket, 16)
  {
    r := [];
    ghost var total: nat := 0;
    var k := 0;
    while k < 16
      invariant 0 <= k <= 16
      invariant |r| == k
      invariant forall j :: 0 <= j < k ==> r[j] == SpreadLine(rows, j)
      invariant total == BucketTotal(rows, Bucket, k)
      invariant total == Sum(r, RowCount)
    {
      BucketStep(rows, k);
      SumAppend(r, [SpreadLine(rows, k)], RowCount);
      total := total + Count(rows, ScoreIs(k / 4, k % 4));
      r := r + [SpreadLine(rows, k)];
      k := k + 1;
    }
  }

  /** The spread report with every line present: the sixteen scorelines
      "h-a" with h and a from 0 to 3, home goals outermost, then "4+" as the
      season's matches not yet counted. Every line is there; the fair odds
      of a line nobody scored is undefined rather than a failure. */
  method GoalSpread(v: SeasonView) returns (r: seq<MarketRow>)
    requires v.Valid()
    ensures |r| == 17
    ensures forall h, a :: 0 <= h < 4 && 0 <= a < 4 ==>
      && r[4 * h + a].market == Scoreline(h, a)
      && r[4 * h + a].count == Count(v.rows, ScoreIs(h, a))
    ensures r[16].market == FourPlus && r[16].count == Count(v.rows, FourOrMore())
    ensures forall k :: 0 <= k < 17 ==> r[k].base == v.numOfMatches
    ensures Sum(r, RowCount) == v.numOfMatches
  {
    var n := v.numOfMatches;
    var lines := ScorelineLines(v.rows);
    FourOrMoreIsRemainder(v.rows);
    var rest := MarketRow(FourPlus, n - Sum(lines, RowCount), n);
    SumAppend(lines, [rest], RowCount);
    r := lines + [rest];
    forall h, a | 0 <= h < 4 && 0 <= a < 4
      ensures r[4 * h + a].market == Scoreline(h, a)
      ensures r[4 * h + a].count == Count(v.rows, ScoreIs(h, a))
    {
      ScoreIndex(h, a);
      assert r[4 * h + a] == SpreadLine(v.rows, 4 * h + a);
    }
  }

  /** What the source's spread needs to be computed: a non-empty season in
      which each of the sixteen scorelines occurred. */
  predicate SpreadDefined(rows: seq<Match>)
  {
    |rows| > 0 && forall h, a :: 0 <= h < 4 && 0 <= a < 4 ==> Count(rows, ScoreIs(h, a)) > 0
  }

  /** The spread report as the source computes it: the lines of
      `GoalSpread`, but failing (a division by zero) on an empty season and
      on a scoreline no match has; only the "4+" line may be empty. */
  method SummaryGoalSpread(v: SeasonView) returns (r: Option<seq<MarketRow>>)
    requires v.Valid()
    ensures r.Some? <==> SpreadDefined(v.rows)
    ensures r.Some? ==> |r.value| == 17
    ensures r.Some? ==> forall h, a :: 0 <= h < 4 && 0 <= a < 4 ==>
      && r.value[4 * h + a].market == Scoreline(h, a)
      && r.value[4 * h + a].count == Count(v.rows, ScoreIs(h, a))
    ensures r.Some? ==> r.value[16].market == FourPlus && r.value[16].count == Count(v.rows, FourOrMore())
    ensures r.Some? ==> forall k :: 0 <= k < 17 ==> r.value[k].base == v.numOfMatches
    ensures r.Some? ==> Sum(r.value, RowCount) == v.numOfMatches
  {
    if !SpreadDefined(v.rows) {
      return None;
    }
    var lines := GoalSpread(v);
    return Some(lines);
  }

  /** A season of one match won 1-0 at home: non-empty, yet it has no 0-0
      match. */
  function OneHomeWin(): SeasonView
  {
    var s := SideStats(0, 0, 0, 0, 0, 0);
    SeasonView([Match("A", "B", 1, 0, 1, 0, 'H', s, s, "S")], "S", 1)
  }

  /** The source's spread fails on a non-empty season: any season that lacks
      one of the sixteen scorelines, such as a single 1-0 home win. */
  lemma SpreadFailsOnOneMatch()
    ensures exists v: SeasonView :: v.Valid() && v.numOfMatches > 0 && !SpreadDefined(v.rows)
  {
    var v := OneHomeWin();
    assert Count(v.rows, ScoreIs(0, 0)) == 0;
    assert v.Valid() && !SpreadDefined(v.rows);
  }

  // ---------------------------------------------------------------------
  // Goal markets

  /** A match with fewer total goals than `line + 0.5`. */
  function UnderAt(line: nat): Match -> bool
  {
    (m: Match) => ((m.fthg + m.ftag) as real) < (line as real) + 0.5
  }

  function UnderCount(rows: seq<Match>, line: nat): nat
  {
    Count(rows, UnderAt(line))
  }

  /** What the goal markets need to be computed: a non-empty season in
      which no under line is empty or full. */
  predicate MarketsDefined(rows: seq<Match>)
  {
    |rows| > 0 && forall l :: 0 <= l < 5 ==> 0 < UnderCount(rows, l) < |rows|
  }

  /** Line `k` of the goal markets: under `k / 2 + 0.5` for even `k`, the
      matching over line for odd `k`. */
  function MarketLine(rows: seq<Match>, k: nat): MarketRow
  {
    var l := k / 2;
    var c := UnderCount(rows, l);
    if k % 2 == 0 then MarketRow(Under(l), c, |rows|) else MarketRow(Over(l), |rows| - c, |rows|)
  }

  /** The under/over markets at 0.5 to 4.5 goals with every line present:
      each under line followed by its over line, always all ten, a fair odds
      undefined where a line is empty. */
  function GoalMarkets(v: SeasonView): (r: seq<MarketRow>)
    requires v.Valid()
    ensures |r| == 10
    ensures forall l :: 0 <= l < 5 ==>
      && r[2 * l].market == Under(l)
      && r[2 * l].count == UnderCount(v.rows, l)
      && r[2 * l + 1].market == Over(l)
      && r[2 * l + 1].count == v.numOfMatches - UnderCount(v.rows, l)
    ensures forall k :: 0 <= k < 10 ==> r[k].base == v.numOfMatches
  {
    assert forall l :: 0 <= l < 5 ==> (2 * l) % 2 == 0 && (2 * l) / 2 == l && (2 * l + 1) % 2 == 1 && (2 * l + 1) / 2 == l;
    seq(10, k requires 0 <= k < 10 => MarketLine(v.rows, k))
  }

  /** The goal markets as the source computes them: failing (a division by
      zero) on an empty season, on an under line no match falls below and
      on an under line every match falls below. */
  function SummaryGoalMarkets(v: SeasonView): (r: Option<seq<MarketRow>>)
    requires v.Valid()
    ensures r.Some? <==>
      v.numOfMatches > 0 && forall l :: 0 <= l < 5 ==> 0 < UnderCount(v.rows, l) < v.numOfMatches
    ensures r.Some? ==> r.value == GoalMarkets(v)
  {
    if !MarketsDefined(v.rows) then None else Some(GoalMarkets(v))
  }

  // ---------------------------------------------------------------------
  // Lemmas: counts

  /** The exact-scoreline bucket `k` holds the matches that ended
      `k / 4` - `k % 4`. */
  lemma BucketStep(rows: seq<Match>, k: nat)
    requires k < 16
    ensures BucketTotal(rows, Bucket, k + 1) == BucketTotal(rows, Bucket, k) + Count(rows, ScoreIs(k / 4, k % 4))
  {
    CountExt(rows, KeyIs(Bucket, k), ScoreIs(k / 4, k % 4));
  }

  /** Scoreline h-a is line `4h + a` of the spread. */
  lemma ScoreIndex(h: nat, a: nat)
    requires a < 4
    ensures (4 * h + a) / 4 == h && (4 * h + a) % 4 == a
  {
  }

  /** The matches outside the sixteen scorelines are those with four or
      more goals on some side. */
  lemma FourOrMoreIsRemainder(rows: seq<Match>)
    ensures Count(rows, FourOrMore()) == |rows| - BucketTotal(rows, Bucket, 16)
  {
    BucketTotalIsCount(rows, Bucket, 16);
    CountComplement(rows, KeyBelow(Bucket, 16), FourOrMore());
  }

  /** The under count is the number of matches with at most `line` goals,
      and the over count the number with more. */
  lemma {:induction false} UnderOverCounts(rows: seq<Match>, line: nat)
    ensures UnderCount(rows, line) == Count(rows, (m: Match) => m.fthg + m.ftag <= line)
    ensures |rows| - UnderCount(rows, line) == Count(rows, (m: Match) => m.fthg + m.ftag > line)
  {
    CountExt(rows, UnderAt(line), (m: Match) => m.fthg + m.ftag <= line);
    CountComplement(rows, UnderAt(line), (m: Match) => m.fthg + m.ftag > line);
  }

  /** Raising the line never lowers the under count. */
  lemma {:induction false} UnderCountMonotone(rows: seq<Match>, l1: nat, l2: nat)
    requires l1 <= l2
    ensures UnderCount(rows, l1) <= UnderCount(rows, l2)
  {
    CountMono(rows, UnderAt(l1), UnderAt(l2));
  }

  /** By monotonicity the goal markets fail exactly when the season is
      empty, has no goalless match, or has no match with five or more goals. */
  lemma {:induction false} GoalMarketsFailure(v: SeasonView)
    requires v.Valid()
    ensures SummaryGoalMarkets(v).None? <==>
      || v.numOfMatches == 0
      || Count(v.rows, ScoreIs(0, 0)) == 0
      || Count(v.rows, (m: Match) => m.fthg + m.ftag >= 5) == 0
  {
    var rows := v.rows;
    UnderOverCounts(rows, 4);
    CountExt(rows, (m: Match) => m.fthg + m.ftag > 4, (m: Match) => m.fthg + m.ftag >= 5);
    CountExt(rows, UnderAt(0), ScoreIs(0, 0));
    forall l | 0 <= l < 5 ensures UnderCount(rows, 0) <= UnderCount(rows, l) <= UnderCount(rows, 4) {
      UnderCountMonotone(rows, 0, l);
      UnderCountMonotone(rows, l, 4);
    }
  }

  /** With valid result codes the three counts cover the season. */
  lemma {:induction false} FtResultsCoverSeason(v: SeasonView)
    requires v.Valid()
    requires forall i :: 0 <= i < |v.rows| ==> v.rows[i].ftr in {'H', 'D', 'A'}
    ensures var r := SummaryFtResults(v); r[0].count + r[1].count + r[2].count == v.numOfMatches
  {
    CountUnion(v.rows, HasCode('H'), HasCode('D'), (m: Match) => m.ftr == 'H' || m.ftr == 'D');
    CountUnion(v.rows, (m: Match) => m.ftr == 'H' || m.ftr == 'D', HasCode('A'), (m: Match) => m.ftr in {'H', 'D', 'A'});
    CountAll(v.rows, (m: Match) => m.ftr in {'H', 'D', 'A'});
  }

  /** With codes that agree with the goals, the counts are the home wins,
      draws and away wins by goals. */
  lemma {:induction false} FtResultsByGoals(v: SeasonView)
    requires forall i :: 0 <= i < |v.rows| ==> CodeConsistent(v.rows[i])
    ensures var r := SummaryFtResults(v);
      && r[0].count == Count(v.rows, (m: Match) => m.fthg > m.ftag)
      && r[1].count == Count(v.rows, (m: Match) => m.fthg == m.ftag)
      && r[2].count == Count(v.rows, (m: Match) => m.fthg < m.ftag)
  {
    CountExt(v.rows, HasCode('H'), (m: Match) => m.fthg > m.ftag);
    CountExt(v.rows, HasCode('D'), (m: Match) => m.fthg == m.ftag);
    CountExt(v.rows, HasCode('A'), (m: Match) => m.fthg < m.ftag);
  }

  // ---------------------------------------------------------------------
  // Lemmas: shares and odds

  /** A line has fair odds exactly when its base and its count are both
      non-zero. */
  lemma FairOddsDefined(row: MarketRow)
    ensures FairOdds(row).Some? <==> row.base > 0 && row.count > 0
  {
    if row.base > 0 {
      var p := Share(row).value;
      if row.count == 0 {
        ZeroProduct(p, row.base as real);
      }
    }
  }

  /** Two lines that split the same base between them have shares that add
      up to 100. */
  lemma SharesComplement(u: MarketRow, o: MarketRow)
    requires u.base == o.base > 0 && u.count + o.count == u.base
    ensures Share(o).value == 100.0 - Share(u).value
  {
    var a, b, n := Share(o).value, Share(u).value, u.base as real;
    AddParts(a * n, b * n, o.count as real, u.count as real);
    assert (a + b) * n == a * n + b * n;
    CancelMul(a + b, 100.0, n);
  }

  /** In the markets of a non-empty season, each over line's share is 100
      less its under line's share, and a line's fair odds is undefined
      exactly when the line is empty. */
  lemma {:induction false} GoalMarketsShares(v: SeasonView, l: nat)
    requires v.Valid() && v.numOfMatches > 0 && l < 5
    ensures var r := GoalMarkets(v);
      && Share(r[2 * l + 1]).value == 100.0 - Share(r[2 * l]).value
      && (FairOdds(r[2 * l]).None? <==> UnderCount(v.rows, l) == 0)
      && (FairOdds(r[2 * l + 1]).None? <==> UnderCount(v.rows, l) == v.numOfMatches)
  {
    var r := GoalMarkets(v);
    SharesComplement(r[2 * l], r[2 * l + 1]);
    FairOddsDefined(r[2 * l]);
    FairOddsDefined(r[2 * l + 1]);
  }

  /** The source's goal markets fail on a non-empty season: any season
      without a goalless match, such as a single 1-0 home win. */
  lemma MarketsFailOnOneMatch()
    ensures exists v: SeasonView :: v.Valid() && v.numOfMatches > 0 && SummaryGoalMarkets(v).None?
  {
    var v := OneHomeWin();
    assert UnderCount(v.rows, 0) == 0;
    assert v.Valid() && SummaryGoalMarkets(v).None?;
  }

  /** When any match is coded, the three result shares add up to 100. */
  lemma {:induction false} FtResultsSharesSum(v: SeasonView)
    ensures var r := SummaryFtResults(v);
      r[0].base > 0 ==> Share(r[0]).value + Share(r[1]).value + Share(r[2]).value == 100.0
  {
    var r := SummaryFtResults(v);
    if r[0].base > 0 {
      SharesOfThree(r[0], r[1], r[2]);
    }
  }

  /** Three lines that split one base between them have shares adding up to
      100. */
  lemma SharesOfThree(x: MarketRow, y: MarketRow, z: MarketRow)
    requires x.base == y.base == z.base > 0 && x.count + y.count + z.count == x.base
    ensures Share(x).value + Share(y).value + Share(z).value == 100.0
  {
    SumOfThree(Share(x).value, Share(y).value, Share(z).value,
               x.count as real, y.count as real, z.count as real, x.base as real);
  }

  lemma SumOfThree(p0: real, p1: real, p2: real, c0: real, c1: real, c2: real, n: real)
    requires n != 0.0 && p0 * n == c0 * 100.0 && p1 * n == c1 * 100.0 && p2 * n == c2 * 100.0
    requires c0 + c1 + c2 == n
    ensures p0 + p1 + p2 == 100.0
  {
    assert (p0 + p1 + p2) * n == p0 * n + p1 * n + p2 * n;
    AddThree(p0 * n, p1 * n, p2 * n, c0, c1, c2, n);
    CancelMul(p0 + p1 + p2, 100.0, n);
  }

  lemma AddParts(x: real, y: real, cx: real, cy: real)
    requires x == cx * 100.0 && y == cy * 100.0
    ensures x + y == (cx + cy) * 100.0
  {
  }

  lemma AddThree(x: real, y: real, z: real, cx: real, cy: real, cz: real, n: real)
    requires x == cx * 100.0 && y == cy * 100.0 && z == cz * 100.0 && n == cx + cy + cz
    ensures x + y + z == 100.0 * n
  {
  }

  lemma ZeroProduct(x: real, z: real)
    requires z != 0.0 && x * z == 0.0
    ensures x == 0.0
  {
  }
}
