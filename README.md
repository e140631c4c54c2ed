# Per-player batting analysis, modelled in Dafny

This project models the data logic of the per-player page of a batting-analysis dashboard
(`main.py`). The page works on a frame of tracked swings. Each swing has a Player, a Date,
an exit Speed (km/h), a launch Angle (degrees), a Dist (m) and a Course (strike-zone cell 1..9).
The page does the following:

- It offers the distinct player names in sorted order. For the chosen player it offers that
  player's distinct dates, newest first, with the newest date as the default choice.
- It narrows the player's rows either to the chosen dates or to the whole history.
- Over that selection it reports the max speed, the mean speed and the barrel rate. A barrel
  is a swing with Speed >= 140 and 10 <= Angle <= 30, both bounds inclusive.
- It builds a 3x3 course heat map of mean speed and a parallel 3x3 matrix of sample counts.
  Zones 1..9 are laid out row-major.
- It draws a per-day trend of mean and max speed over the player's whole history.
- It lists the selected swings newest day first and, within a day, fastest first.

A swing is the datatype `Swings.Swing`. A missing (NaN) cell is `None`. The computations are
functions over `seq<Swing>`, and lemmas state what the page promises. Most are total. A few
carry a precondition, each matching a guard in `main.py`:

- `Selection.DefaultDates` requires a non-empty row list. The page takes `player_dates[0]`
  (main.py:12) only for a player picked from the player list, and such a player always has
  rows (`Selection.ChosenPlayerHasRows`).
- `Metrics.BarrelRate` and `Metrics.Summarize` require a non-empty selection, and
  `Metrics.Percent` a positive whole. The metrics are computed only inside
  `if not p_df.empty` (main.py:17); `PlayerAnalysis.Analyze` makes the same test.
- `CourseGrid.CellOf` requires a zone in 1..9, and `CourseGrid.Reshape` a nine-element list.
  Those are the zones `reindex(range(1, 10))` produces before `reshape(3, 3)` (main.py:30, 33).

The modules are:

| module | what it holds |
|---|---|
| `Wrappers` | `Option` |
| `Seqs` | boolean-mask `Filter`, `Reversed`, a multiset helper |
| `Stats` | `Sum`, `Mean`, `Max` over a list of present values (`Swings.Speeds` drops the missing ones first) |
| `Swings` | the `Swing` record, the barrel classifier, the Speed and Date columns |
| `Selection` | player list, player rows, date list, default date, scope selection |
| `Metrics` | barrel count and rate, max and mean speed of a selection |
| `CourseGrid` | per-zone mean and count, the two 3x3 matrices |
| `Trend` | per-day mean and max over the full history |
| `History` | the swing-history table and its stable two-key sort |
| `PlayerAnalysis` | the whole page: `Analyze` and the lemmas that tie the parts together |

Dafny's `real` is exact, so speeds and angles carry no rounding. The model follows pandas'
treatment of missing values:

- A comparison with a missing value is false, so a swing with no speed or no angle is never a barrel.
- `max()`, `mean()` and the grouped `count()` skip missing speeds.
- The barrel flag column itself is never missing. So the barrel rate divides by all selected
  rows, including rows without a speed.
- A zone that no swing hit gets no cell value from `reindex`. This holds for the count matrix
  too. A zone whose swings all lack a speed has count 0 and no mean.

Three consequences of the code that a reader might not expect:

- An empty selection never gets a barrel rate or any other metric: main.py:17 shows nothing
  then. `PlayerAnalysis.Analyze` returns `None` in exactly that case.
- A zone that no swing hit has no count, rather than a count of 0, because `reindex` leaves
  it missing (main.py:33). `CourseGrid.CountGrid` holds `None` there.
- Nothing here filters swings by speed, so a swing may have any speed, or none.

## Model

| member | source | states |
|---|---|---|
| `Selection.PlayerChoices` | main.py:2 | the player list is strictly ascending in string order (so no name twice) and holds exactly the names in the Player column |
| `Selection.PlayerChoicesDistinct` | main.py:2 | no name appears twice in the player list |
| `Selection.LexTotal` | main.py:2 | any two different names are ordered one way or the other by the string order used for sorting |
| `Selection.LexTransitive` | main.py:2 | the string order is transitive |
| `Selection.LexIrreflexive` | main.py:2 | no name sorts before itself |
| `Selection.ChosenPlayerHasRows` | main.py:2-5 | a name offered in the player list has at least one row |
| `Selection.PlayerRows` | main.py:5 | the player's rows are exactly the frame's rows with that Player, each as often as in the frame |
| `Selection.InsertName` | main.py:2 | inserting a name into a strictly ascending list keeps it strictly ascending and adds exactly that name |
| `Selection.InsertDate` | main.py:6 | inserting a date into a strictly ascending list keeps it strictly ascending and adds exactly that date |
| `Selection.DistinctDates` | main.py:6 | the player's distinct dates are strictly ascending and are exactly the dates in the player's rows |
| `Selection.DateChoices` | main.py:6 | the date list is strictly newest first (no date twice) and offers exactly the dates on which the player has rows |
| `Seqs.Reversed` | main.py:6 | reversing keeps the length and puts element i at position n-1-i |
| `Seqs.ReversedMembers` | main.py:6 | reversing keeps exactly the same elements |
| `Selection.ReversedDescending` | main.py:6 | a strictly ascending list read backwards is strictly descending |
| `Selection.DefaultDates` | main.py:12 | the default choice is a single date that the player played on and that no row of the player is later than |
| `Selection.DefaultScopeIsNewestDay` | main.py:12-13 | keeping the default choice selects exactly the player's rows from the newest day, and at least one |
| `Selection.NewestDaySelection` | main.py:12-13 | selecting only a date that some row carries and no row is later than keeps exactly the rows of the newest day, and at least one |
| `Selection.Select` | main.py:11-15 | with chosen dates the selection keeps exactly the rows whose date is chosen, each as often as before; in all-period mode it is every row |
| `Seqs.Filter` | main.py:13 | a boolean mask keeps exactly the rows satisfying it, and never more rows than it was given |
| `Seqs.FilterMultiset` | main.py:13 | a boolean mask keeps each row satisfying it as often as it occurs, and no other row |
| `Selection.SelectionContents` | main.py:11-15 | the selection holds exactly the chosen player's rows in scope (on a chosen date, or any date in all-period mode), never another player's row; all-period mode is the full row set |
| `PlayerAnalysis.Analyze` | main.py:5-17 | the page shows nothing exactly when no row of the player falls in the scope |
| `PlayerAnalysis.DefaultViewShown` | main.py:2-17 | for a listed player and the default date choice, the page is shown, over exactly that player's rows from the newest day |
| `Swings.IsBarrel` | main.py:19 | specified by `Swings.BarrelBoundaries`, the next row |
| `Swings.BarrelBoundaries` | main.py:19 | the barrel test `IsBarrel` (speed >= 140 and angle in [10, 30], both values present): 140 km/h, 10 and 30 degrees are inside; 139.9 km/h, 9.9 and 30.1 degrees, a missing speed and a missing angle are outside |
| `Metrics.BarrelCount` | main.py:19-23 | the barrel count is the number of rows the barrel mask keeps, at most the number of rows, zero exactly when no row is a barrel, and all of them exactly when every row is |
| `Metrics.BarrelRate` | main.py:17-23 | on a non-empty selection the barrel rate is 100 times the share of barrel rows among all selected rows, lies in [0, 100], is 100 exactly when every row is a barrel and 0 exactly when none is |
| `Metrics.Percent` | main.py:23 | a share of a positive whole in percent lies in [0, 100], times the whole gives 100 times the part, and is 100 exactly for the whole and 0 exactly for none |
| `Metrics.MaxSpeed` | main.py:21 | the max speed is missing exactly when no row has a speed; otherwise it is carried by some row and no row's speed exceeds it |
| `Metrics.MeanSpeed` | main.py:22 | the mean speed is present exactly when some row has a speed (so exactly when the max is); it is then the sum of the present speeds over their number, and never exceeds the max |
| `Metrics.MeanOfSpeeds` | main.py:22 | the mean of the Speed column is present exactly when some row has a speed, and equals the sum of the present speeds divided by the number of rows that have one; rows without a speed count in neither |
| `Metrics.Summarize` | main.py:21-23 | the summary's max is the largest speed of a selected row, missing only without speeds; its mean is present with it, is the sum of the present speeds over the number of rows that have one, and is not above the max; its barrel rate is the selection's barrel share |
| `Stats.Max` | main.py:21 | the maximum of a non-empty column belongs to it and bounds every value; an empty column has none |
| `Stats.Mean` | main.py:22 | specified by `Stats.MeanTimesCount`; an empty column has no mean |
| `Stats.MeanTimesCount` | main.py:22 | the mean times the number of values is their sum |
| `Stats.MeanAtMostMax` | main.py:21-22 | a column's mean exists exactly when its max does and never exceeds it |
| `Stats.SumPermutation` | main.py:30 | the sum of a column does not depend on the order of its values |
| `Swings.Speeds` | main.py:21-22 | specified by `Swings.SpeedsInRowOrder`, `Swings.SpeedsCount` and `Swings.SpeedsMembers`, the rows below |
| `Swings.SpeedsInRowOrder` | main.py:21-22 | the Speed column without missing cells is exactly the speeds of the rows that have one, in row order: the k-th value is the k-th such row's speed |
| `Swings.SpeedsCount` | main.py:21-33 | the Speed column without missing cells holds one value for each row that has a speed |
| `Swings.SpeedsPermutation` | main.py:30 | reordering the rows only reorders the Speed column |
| `Swings.SpeedsMembers` | main.py:21 | a value is in the Speed column exactly when some row carries it |
| `CourseGrid.CellOf` | main.py:28-30 | zone c sits at row (c-1) div 3, column (c-1) mod 3, inside the 3x3 grid, and the cell gives back c |
| `CourseGrid.Reshape` | main.py:30 | the 3x3 reshape puts the k-th of nine values at row k div 3, column k mod 3 |
| `CourseGrid.MeanGrid` | main.py:30 | the mean matrix (zone means reindexed to 1..9, then reshaped) is 3x3 and zone c's cell holds that zone's mean |
| `CourseGrid.CountGrid` | main.py:33 | the count matrix (zone counts reindexed to 1..9, then reshaped) is 3x3 and zone c's cell holds that zone's count |
| `CourseGrid.CourseSwings` | main.py:30 | a zone's group holds exactly the selected swings with that course, each as often as selected |
| `CourseGrid.CourseGroup` | main.py:30 | a swing is in a zone's group exactly when it is selected and has that course |
| `CourseGrid.CourseMean` | main.py:30 | specified by `CourseGrid.MeanCell`, the next row |
| `CourseGrid.MeanCell` | main.py:30 | a zone's mean cell is empty exactly when none of its swings has a speed (always when the zone is empty); otherwise it is their speed sum over the count and at most the fastest of them |
| `CourseGrid.CourseCount` | main.py:33 | specified by `CourseGrid.CountCell`, the next row |
| `CourseGrid.CountCell` | main.py:33 | a zone's count cell is empty exactly when no swing went there (never 0 for an empty zone); otherwise it is the number of the zone's swings that have a speed |
| `CourseGrid.OffGridIgnored` | main.py:30-33 | swings with a missing course or one outside 1..9 change neither matrix |
| `CourseGrid.ZonePermutation` | main.py:30-33 | a zone's mean and count do not depend on the order of the selected rows |
| `CourseGrid.GridPermutation` | main.py:30-33 | both matrices depend only on which swings were selected, not on their order |
| `Trend.DaySwings` | main.py:61 | a day's group holds exactly the player's rows on that day, each as often as in the history |
| `Trend.DayPoint` | main.py:61 | specified by `Trend.TrendPointValues` |
| `Trend.TrendDays` | main.py:61 | the trend (`DailyTrend`, one point per distinct day of the full history) is ordered: its dates are strictly ascending (no day twice), and a day is in the trend exactly when the player has a row on it |
| `Trend.TrendPointValues` | main.py:61 | each point's max is the fastest speed of its day, carried by one of its rows, missing only when none has a speed; its mean is present with it, not above it, and equals the sum of the day's present speeds over the number of that day's rows that have a speed |
| `PlayerAnalysis.TrendIgnoresScope` | main.py:59-61 | for any two scopes that select some rows, the page is shown for both and the trends are the same: the trend of the player's whole history |
| `History.Project` | main.py:68 | the table has one row per selected swing, with that swing's Date, Speed, Angle, Dist and Course |
| `History.KeyOrder` | main.py:68 | the Date-desc, Speed-desc order is a strict weak order: never both ways, neither way exactly for equal keys, and "not after" is transitive |
| `History.Insert` | main.py:68 | specified by `History.InsertOrdered`, the next row |
| `History.InsertOrdered` | main.py:68 | inserting into an ordered table keeps it ordered and adds exactly one row |
| `History.SortRows` | main.py:68 | sorting yields a table in history order holding the same rows |
| `History.SwingHistory` | main.py:68 | the history is a permutation of the selection's rows, ordered by Date descending then Speed descending, with missing speeds last within a day |
| `History.InsertWithKey` | main.py:68 | inserting a row leaves the order of rows with any one key unchanged, apart from the new row at the front |
| `History.SortStable` | main.py:68 | sorting keeps the rows that share a key in their original order |
| `History.HistoryStable` | main.py:68 | the history sort is stable: rows with equal Date and Speed keep their selection order |
| `PlayerAnalysis.PageOfSelection` | main.py:17-68 | when the selection is non-empty the page is shown, and its metrics, mean grid, count grid and history are those of the scoped selection |
| `PlayerAnalysis.HistoryOfSelection` | main.py:66-68 | when the selection is non-empty the page is shown, and its history lists every selected swing once, in history order |

## Left out

- The widgets (`selectbox`, `radio`, `multiselect`, `columns`, `metric`, `header`, `subheader`) are left out. The chosen player, the scope and the chosen dates are plain parameters.
- The multiselect only offers the player's dates. The model accepts any list of dates, which `isin` treats the same way.
- The Plotly figures, their layout, hover texts and axis range are left out, as is the HTML table output. They are rendering only.
- The one-decimal formatting of the metrics and the table is left out. It is presentation.
- Float arithmetic is left out. Speeds, angles and means are exact reals, so NaN propagation inside float arithmetic is not modelled either.
- Missing dates (NaT) and missing player names are left out. Dates are day numbers and names are strings.
- A non-integral Course value (for example 2.5) is left out. Course is an optional integer.
- `player_dates[0]` on an empty date list is left out. `Selection.DefaultDates` requires rows, and `Selection.ChosenPlayerHasRows` shows that a listed player always has some.
- Ingestion, column-name normalisation, caching and period-over-period comparison are not part of this model. That code is not part of `main.py`.
