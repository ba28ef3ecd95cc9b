# Season summary of a football league, modelled in Dafny

This project models `SeasonSummary`, the season-level reporting core of a
Premier League dashboard. The reporting core starts from a table of matches (one row per match, with
the two team names, full-time and half-time goals, the stored result code
`H`/`D`/`A`, per-side corners, shots, shots on target, cards and fouls, and
a season label). It selects one season and derives these reports from that
view:

- the result matrix: home teams × away teams, each cell the full-time
  score of the row team at home;
- the goal summary: home, away and total goals at full time, at half time
  and in the second half, with means per match;
- the full-time result split: home wins, draws and away wins, with their
  shares and fair odds;
- the goal spread: the sixteen scorelines 0-0 … 3-3 and a "4+" remainder,
  each with its share and fair odds;
- the goal markets: under/over 0.5 … 4.5 total goals;
- the statistics summary: total, largest and smallest single-match value
  of each per-side statistic, for the home side, the away side and both;
- the home, away and overall league tables, ranked by points, then goal
  difference, then goals scored, with a dense rank;
- one team's profile: its overall, home and away lines side by side.

Modules follow that structure:

- `Matches`: one match row.
- `Season`: the season view and the team lists.
- `ResultMatrix`: the result matrix.
- `Summaries`: goals and statistics.
- `Markets`: the result split, the spread and the markets.
- `TeamRows`: one team's row in a table.
- `Ranking`: the rank key, the dense rank and the ranked table.
- `Tables`: the three tables and lookup.
- `TeamStats`: the team profile.

`Tally`, `Sorting` and `Options` hold the generic counting, sorting and
undefined-value helpers.

Pandas' NaN and infinity, and Python's division by zero, are modelled as
undefined values (`Option.None`). A report that raises on some input is
modelled as a function that returns `None` on exactly those inputs.

Three behaviours of the code are easy to misread; the model follows the code
on each:

- **Team lookup.** Every team of the season gets a row in all three tables:
  the team list is the union of home and away names. So looking up a team
  fails only for a team that never played in the season. A team without
  away matches does not make the lookup fail; it gets a row with 0 played.
- **Result-split shares.** The shares of the full-time result split are
  taken over the sum of the three counts, not over the number of matches.
  A match with any other code is in no line and in no base.
- **Fair odds.** The spread's scorelines and the goal markets compute fair
  odds with a plain float division, so the code fails on a season where
  some scoreline or some line has no match. `Markets.SummaryGoalSpread` and
  `Markets.SummaryGoalMarkets` keep that failure. `Markets.GoalSpread` and
  `Markets.GoalMarkets` report every line, with the fair odds of an empty
  line undefined. See "## Findings".

## Model

| member | source | states |
|---|---|---|
| Season.NewSeasonSummary | data_proc.py:26-29 | the view holds exactly the matches of the requested season, each as often as in the full table; its match count is their number |
| Season.NewSeasonSummaryIdempotent | data_proc.py:26-29 | building the view again from a view of the same season changes nothing |
| Season.NewSeasonSummaryKeepsOrder | data_proc.py:27 | the view keeps the table's row order: the view of two tables joined is the two views joined |
| Season.NewSeasonSummaryOneRow | data_proc.py:27 | a one-row table gives that row if it is of the season and nothing otherwise; with the order lemma this fixes the view of every table |
| Season.Teams | data_proc.py:444-446 | the team list has no duplicates and holds exactly the teams that played at home or away in the season |
| Season.HomeTeamsSorted | data_proc.py:36-37 | the matrix's team list holds exactly the teams that played at home, strictly increasing in lexicographic order |
| ResultMatrix.FindFixture | data_proc.py:46-50 | a fixture of the row team at home against the column team is found exactly when one exists, and it is the first such match of the season |
| ResultMatrix.GetResultMatrix | data_proc.py:34-55 | the matrix exists exactly when every ordered pair of distinct home teams met with the first at home; it is square over the sorted home teams, the diagonal holds exactly the dashes, and every other cell is the score of the first such match |
| ResultMatrix.GridCells | data_proc.py:40-53 | for distinct teams the grid is square, its dashes lie exactly on the diagonal and every other cell is its pair's first-fixture score |
| ResultMatrix.CellIsTheFixture | data_proc.py:46-51 | when a pair met exactly once with the row team at home, the cell is that match's score |
| Summaries.MakeGoalLine | data_proc.py:78-81 | second-half goals are full-time goals less first-half goals, and each mean is its count over the number of matches, undefined for none |
| Summaries.SummaryGoals | data_proc.py:57-97 | total = home + away at full time, at half time and in the second half; home and away goals are the season sums of their columns; second half = full time − first half on every line |
| Summaries.SummaryGoalsPerMatch | data_proc.py:64-78 | total full-time goals and the second-half goals of each line equal the season sums of the per-match values |
| Summaries.SummaryGoalsMeans | data_proc.py:79-81 | the nine means (full time, first half, second half for home, away and both) are defined exactly for a non-empty season and equal the season means of the per-match columns |
| Summaries.SummaryStat | data_proc.py:241-253 | the count is the season sum of the selected column; the maximum and minimum are defined exactly for a non-empty season, bound every match's value and are attained by some match |
| Summaries.StatCountTotal | data_proc.py:242-244 | for every statistic, the both-sides total is the home total plus the away total |
| Summaries.StatMaxTotal | data_proc.py:248-250 | the both-sides maximum is at least each side's maximum and at most their sum |
| Summaries.StatMinTotal | data_proc.py:251-253 | the both-sides minimum is at least the sum of the sides' minima |
| Markets.Share | data_proc.py:168 | a line's share is defined exactly for a non-empty base and is its count in percent of the base |
| Markets.FairOdds | data_proc.py:141 | where defined, the fair odds times the share is 100 |
| Markets.FairOddsDefined | data_proc.py:141 | fair odds are defined exactly when the base and the count are both non-zero |
| Markets.SummaryFtResults | data_proc.py:99-110 | three lines (home win, draw, away win) counting the matches by their stored code, each over the base of the three counts together |
| Markets.FtResultsCoverSeason | data_proc.py:102-110 | when every code is H, D or A, the three counts add up to the season's matches |
| Markets.FtResultsByGoals | data_proc.py:102-108 | when every code agrees with the goals, the counts are the home wins, draws and away wins by goals |
| Markets.FtResultsSharesSum | data_proc.py:110 | when any match is counted, the three shares add up to 100 |
| Markets.ScorelineLines | data_proc.py:163-171 | the sixteen scoreline lines in order, line 4h+a counting the h-a results; their counts add up to the matches with at most three goals per side |
| Markets.GoalSpread | data_proc.py:157-185 | every one of the 17 lines is present: line 4h+a counts the h-a results, "4+" counts the matches with four or more goals on some side, all over the season's matches, and the counts add up to that number; nothing fails, and by Markets.FairOddsDefined a line's fair odds is undefined exactly when the season or the line is empty |
| Markets.SummaryGoalSpread | data_proc.py:157-185 | the spread as computed: defined exactly for a non-empty season in which every scoreline from 0-0 to 3-3 occurred, and then the lines of the intended spread |
| Markets.SpreadFailsOnOneMatch | data_proc.py:168-169 | a non-empty season exists (one 1-0 home win) on which the spread as computed fails |
| Markets.FourOrMoreIsRemainder | data_proc.py:174-177 | the "4+" remainder counts exactly the matches with four or more goals on some side |
| Markets.BucketStep | data_proc.py:163-167 | adding scoreline k adds the matches that ended k/4 - k%4 |
| Markets.GoalMarkets | data_proc.py:192-206 | ten lines: under l+0.5 counting the matches below that total, then its over line counting the rest, all over the season's matches |
| Markets.SummaryGoalMarkets | data_proc.py:187-209 | the markets as computed: defined exactly for a non-empty season in which no under line is empty or full, and then the intended lines |
| Markets.GoalMarketsShares | data_proc.py:197-205 | in a non-empty season each over share is 100 less its under share, and a line's fair odds is undefined exactly when the line is empty |
| Markets.MarketsFailOnOneMatch | data_proc.py:197-198 | a non-empty season exists (one 1-0 home win) on which the markets as computed fail |
| Markets.UnderOverCounts | data_proc.py:194-203 | the under l+0.5 count is the number of matches with at most l goals, and the over count the number with more |
| Markets.UnderCountMonotone | data_proc.py:194-196 | raising the line never lowers the under count |
| Markets.GoalMarketsFailure | data_proc.py:192-206 | the markets as computed fail exactly on an empty season, a season without a 0-0 match, or one without a match of five or more goals |
| Markets.SharesComplement | data_proc.py:203-204 | two lines splitting one base have shares adding up to 100 |
| Markets.SharesOfThree | data_proc.py:110 | three lines splitting one base have shares adding up to 100 |
| TeamRows.RatioOpt | data_proc.py:467-468 | the shots-per-goal ratio is defined exactly when both means are and the goal mean is non-zero, and then times the goal mean gives the shot mean |
| TeamRows.VenueRow | data_proc.py:450-472 | the team's row at one venue is named after it and has played = its matches at that venue |
| TeamRows.Weighted | data_proc.py:589-592 | the overall rate is the play-weighted average of the home and away rates, undefined when either rate is or when no match was played |
| TeamRows.VenueRowPartition | data_proc.py:452-455 | at each venue played = won + draw + lost |
| TeamRows.VenueRowPoints | data_proc.py:458-459 | a venue row's points and goal difference are the sums of the per-match points and goal differences |
| TeamRows.VenueRowDirect | data_proc.py:450-470 | a venue row's wins, draws, losses, goals scored and conceded and red cards are counted and summed over the season's matches the team played at that venue, from its own side (the away table, lines 510-531, mirrors this); gd = goals scored − goals conceded |
| TeamRows.VenueRowMeans | data_proc.py:461-472 | each per-match rate of a venue row (goals, corners, shots, yellow cards, fouls, for and against) is defined exactly when the team played there, and times the matches played gives the season total of that column at the venue |
| TeamRows.VenueRowShotsPerGoal | data_proc.py:467-468 | shots per goal scored is defined exactly when the team played and scored at the venue, and times the goals gives the shots made; likewise shots allowed per goal conceded |
| TeamRows.OverallRow | data_proc.py:570-664 | the overall row is named after the team and has played every match the team played at home or away |
| TeamRows.OverallRatesWeighted | data_proc.py:589-641 | each of the eleven per-match rates of the overall row, shots per goal scored and conceded included, is the home and away rates weighted by matches played |
| TeamRows.EmptyVenueNoRates | data_proc.py:461-472 | at a venue where the team has no match every per-match rate is undefined |
| TeamRows.OverallRatesNeedBothVenues | data_proc.py:589-641 | a team with no match at one venue has every per-match rate of its overall row undefined, even though it played at the other venue |
| TeamRows.OverallIsHomePlusAway | data_proc.py:574-587 | the overall row's played, results, goals, goal difference, points and red cards are home plus away, and it keeps the partition, the points rule and the goal-difference rule |
| TeamRows.ScopeRowTotals | data_proc.py:574-587 | the overall table's row adds up the home and away tables' rows |
| TeamRows.ScopeRowRules | data_proc.py:452-459 | every table's row is named after its team and keeps the partition, the points rule and gd = goals scored − goals conceded |
| TeamRows.PlayedDirect | data_proc.py:574 | without self-matches, home plus away played is the number of matches the team is in |
| TeamRows.ResultsDirect | data_proc.py:575-577 | overall wins, draws and losses are the team's won, drawn and lost matches counted directly |
| TeamRows.TotalsDirect | data_proc.py:578-585 | overall goals for and against and red cards are summed directly over the team's matches |
| TeamRows.PointsDirect | data_proc.py:587 | overall points are the sum of the points each of the team's matches earned it |
| TeamRows.OverallMatchesDirect | data_proc.py:574-633 | the overall row agrees with counting and summing the team's own matches |
| TeamRows.WeightedMeanIsSeasonMean | data_proc.py:589-592 | when both venues have matches, the weighted average of the venue means is the mean over all the team's matches |
| TeamRows.OverallRatesAreSeasonMeans | data_proc.py:589-641 | when both venues have matches, each of the nine per-game means of the overall row (goals, corners, shots, yellow cards, fouls, for and against) is the team's mean over all its matches; the two shots-per-goal rates are weighted too (TeamRows.OverallRatesWeighted) but are not season means |
| TeamRows.SingleMatchRow | data_proc.py:450-461 | a venue row built from one match has played 1, one result indicator set by that match's score, points 3 per win plus 1 per draw, that match's goals scored and conceded, its goal difference, and its goals as goals scored per match |
| TeamRows.WinAtHomeLossAway | data_proc.py:574-592 | a team with one home win and one away loss has played 2, won 1, lost 1 and 3 points overall, and its overall goals per match is the midpoint of its goals in the two matches |
| Ranking.RankTable | data_proc.py:499-507 | the ranked table is a permutation of the rows annotated with key and dense rank, in ascending rank |
| Ranking.KeyIsLexicographic | data_proc.py:499-503 | for goal differences within ±499 and goals scored below 1000, the numeric key orders by points, then goal difference, then goals scored |
| Ranking.KeyCanInvertPoints | data_proc.py:499-503 | beyond those bounds a team with more points can get the lower key: some season's home table has a team with a 0-0 draw ranked below one with a 1001001-1001002 loss |
| Ranking.DenseRankIff | data_proc.py:504-506 | among the table's keys, a higher key has a smaller rank and equal keys have equal ranks, both ways |
| Ranking.DenseRankAntitone | data_proc.py:504-506 | a higher key never has a larger rank |
| Ranking.DenseRankStrict | data_proc.py:504-506 | a key of the table ranks strictly ahead of every lower key |
| Ranking.DenseRankTop | data_proc.py:504-506 | the highest key ranks 1 |
| Ranking.DenseRankNext | data_proc.py:504-506 | the next lower key ranks exactly one further down |
| Ranking.DenseRankBound | data_proc.py:504-506 | every rank lies between 1 and the number of distinct keys |
| Ranking.RankTableEntries | data_proc.py:499-507 | every entry is one of the rows, with its key and its dense rank, and every row has an entry |
| Ranking.RankTableKeys | data_proc.py:499-507 | the entries' keys are exactly the rows' keys |
| Ranking.RankTableOrder | data_proc.py:504-507 | entries rank ahead exactly when their key is higher, tie exactly when their keys are equal, and keys descend down the table |
| Ranking.RankTableIsRankedOver | data_proc.py:504-507 | the table lists every key with its dense rank, by ascending rank |
| Ranking.RankTableDense | data_proc.py:504-507 | the first entry ranks 1 and each next entry ranks the same or one further down |
| Tables.CalcMainTablesDefault | data_proc.py:412 | called without a table name, the function returns the overall table |
| Tables.CalcMainTables | data_proc.py:682-689 | a table exists exactly for the names home, away and overall, and each name gives its own table (home rows for "home", and so on); it has one entry per team of the season and covers exactly those teams |
| Tables.Lookup | data_proc.py:728 | finding a team's entry succeeds exactly when the table has one, and returns an entry of that team |
| Tables.TableTeams | data_proc.py:444-507 | each table has exactly one entry per team of the season; each entry is its team's row for that table with its dense rank |
| Tables.TableLookup | data_proc.py:728-735 | looking a team up finds it exactly when it played in the season, and returns its row with its dense rank |
| TeamStats.LineOf | data_proc.py:728-748 | the line carries its category and reads the entry's counts, goals, points, position, goal and corner rates, shots per goal for and against, and foul rates; total goals = scored + conceded; average points is defined exactly for a team with matches and times the matches gives the points; average goals, corners total and fouls total are the sums of their parts, undefined when a part is |
| TeamStats.Entry | data_proc.py:726-728 | a team's entry in a table exists exactly when it played in the season |
| TeamStats.CalcTeamStats | data_proc.py:691-777 | the profile exists exactly when the team played in the season, and has the overall, home and away lines in that order |
| TeamStats.EntryRow | data_proc.py:728-736 | the entry is the team's row for that table |
| TeamStats.EntryRank | data_proc.py:735 | the entry's position is the team's dense rank in that table |
| TeamStats.EntryRules | data_proc.py:728-736 | every entry keeps the partition and points rules |
| TeamStats.EntryTotals | data_proc.py:574-587 | the overall entry adds up the home and away entries |
| TeamStats.TeamStatsLines | data_proc.py:725-736 | each line reads the counts, goals, points, position and per-match rates off the team's entry in its table |
| TeamStats.TeamStatsPositions | data_proc.py:735 | each line's position is the team's dense rank in that line's table |
| TeamStats.TeamStatsLineRules | data_proc.py:728-736 | on every line mp = win + draw + lost and points = 3·win + draw |
| TeamStats.TeamStatsTotalIsHomePlusAway | data_proc.py:725-736 | the overall line's matches, results, goals, total goals and points are home plus away |
| TeamStats.TeamStatsTotalDirect | data_proc.py:728-736 | without self-matches the overall line's matches, results and points are the team's own matches counted directly |

## Left out

- Reading the CSV files, the command-line entry point and printing:
  these are I/O.
- The mean bookmaker odds and mean winning odds of the result split:
  these are floating-point averages of columns the model does not carry.
- Rounding to two decimals: this applies to the spread's fair odds and the
  statistics' per-game means. The model keeps exact values; rounding is
  floating-point presentation.
- The per-game means of the statistics summary: they are plain column
  means, of the same kind as the goal means, which are modelled.
- The data-frame layout: index names, column labels and the string form
  "h-a" of a matrix cell. Cells keep the two goal counts instead.
- The order of teams before ranking. The source takes them from a Python
  set, so the order is unspecified. The model joins the home-team column
  and the away-team column, in that order, keeps each name at its first
  occurrence in the joined list, and sorts stably by rank; that is one of
  the orders the source can produce.
- Ranking.KeyIsLexicographic: holds only within the bounds in its
  precondition. The numeric key mixes points, goal difference and goals
  scored, so those fields must stay in range; Ranking.KeyCanInvertPoints
  shows the key misorders outside them.
- TeamRows.VenueRow: its own contract states only the team and the number
  of matches. Its other fields are stated by TeamRows.VenueRowDirect,
  TeamRows.VenueRowMeans, TeamRows.VenueRowShotsPerGoal,
  TeamRows.VenueRowPartition and TeamRows.VenueRowPoints.
- Integer width: all counts and sums are unbounded integers. The source's
  64-bit integers cannot overflow on league-sized data.

## Findings

| source | as written | input that shows it | evidently intended | confidence | as-written member | corrected member |
|---|---|---|---|---|---|---|
| data_proc.py:168-169 | the fair odds of each of the sixteen scorelines is a plain float division by the scoreline's share, which raises when the scoreline never occurred; the share itself divides by the number of matches | a season whose only match is a 1-0 home win | every line reported, the fair odds of an empty scoreline undefined, as the "4+" line already gets (infinity) | medium, not executed | Markets.SpreadFailsOnOneMatch | Markets.GoalSpread |
| data_proc.py:197-205 | the under line's fair odds divides by its share and the over line's by 100 less it, which raise when no match or every match is under the line | a season whose only match is a 1-0 home win (no match under 0.5 goals) | every line reported, the fair odds of an empty line undefined | medium, not executed | Markets.MarketsFailOnOneMatch | Markets.GoalMarkets |
