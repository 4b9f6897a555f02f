# SpaceX launch dashboard: the data queries, in Dafny

The dashboard (`3.dashboard.py`) loads a table of rocket launches once at start-up. Each row has a launch site, a payload mass, a booster version and a binary `class` outcome (1 success, 0 failure). It offers four things on top of that table, and this project models and proves all four:

- **Payload bounds** (lines 14-15): the minimum and maximum payload, the range slider's initial value.
- **Site dropdown options** (lines 21-24): an "All Sites" entry, then one entry per site, in the order of `value_counts()` on the site column.
- **Success pie** (lines 51-60). For "All Sites" it shows `groupby('Launch Site')['class'].sum()`. For one site it shows `value_counts()` of that site's `class` column, with the names `["Failure", "Success"]` assigned to its rows by position.
- **Payload scatter** (lines 67-75): the rows whose payload lies strictly between the two slider values, narrowed to the selected site unless "All Sites" is selected.

The table is a `seq<LaunchRecord>`. The pandas operations used are modelled on sequences: a boolean mask is `Frame.Where`, `value_counts()` is `Counts.ValueCounts`, and `groupby().sum()` is `PieChart.GroupSuccesses`. Python's ordering of strings, which `groupby` uses to sort its groups, is `LexOrder.LexLess`. The dropdown options are built by a loop in the program, so they are a `method` with a loop and invariants. Everything else is a pure expression in the program and is modelled as functions with lemmas.

Files:

- `frame.dfy`: masks, counting and subsequences.
- `lex_order.dfy`: string order.
- `value_counts.dfy`: `value_counts()`.
- `launch_data.dfy`: the table, its columns and the payload bounds.
- `site_options.dfy`: the dropdown.
- `pie_chart.dfy`: the pie.
- `scatter_chart.dfy`: the scatter.

Some of the code's behaviour is easy to miss, and the model states it as the code has it:

- A single site that is not in the table selects no rows. Assigning the two names to the resulting empty frame at line 58 does not fail. pandas first gives the frame one row per name, with a NaN count; the index, which held the outcome, becomes the list positions 0 and 1. The pie is empty. The model returns two `NameOnly` rows, which carry only the name, the one column besides the count that the pie reads.
- A single site with launches of only one outcome makes the name assignment at line 58 fail, because there are two names for one row. The model returns that length-mismatch error (see Findings).
- For a single site, "Failure" goes to whichever outcome is more frequent, not to class 0 (see Findings).
- The dropdown lists the sites by number of launches, most first, because the code iterates over the `value_counts()` index. The model states that order.

## Model

| member | source | states |
|---|---|---|
| `LaunchData.MaxPayload` | 3.dashboard.py:14 | `None` (pandas' NaN) exactly for an empty table; otherwise a value that is at least every row's payload and equals some row's payload |
| `LaunchData.MinPayload` | 3.dashboard.py:15 | `None` exactly for an empty table; otherwise a value at most every row's payload, attained by some row |
| `LaunchData.SiteRecords` | 3.dashboard.py:57 | `df[df["Launch Site"] == site]`: no more rows than the table, every one of them from that site; `PieChart.SiteRecordsEmpty` states when it is empty |
| `LaunchData.SuccessCount` | 3.dashboard.py:53 | the sum of the `class` column is at most the number of rows; `LaunchData.SuccessesAreOnes` states that it counts the successes |
| `LaunchData.SuccessesAreOnes` | 3.dashboard.py:53 | summing the binary `class` column counts the successful launches (the 1s) |
| `LaunchData.OutcomesSplit` | 3.dashboard.py:57 | every row is counted once, as a failure or as a success: the two counts add up to the number of rows |
| `Frame.Where` | 3.dashboard.py:69-73 | `df[mask]`: no more rows than the table, each a row of the table that the mask accepts; `Frame.WhereOccurrences` and `Frame.WhereIsSubsequence` pin the result down exactly |
| `Frame.WhereOccurrences` | 3.dashboard.py:69 | a mask selection keeps every copy of a row the mask accepts and no copy of one it rejects |
| `Frame.WhereIsSubsequence` | 3.dashboard.py:69 | a mask selection only drops rows; the kept rows are in their original order |
| `Frame.WhereCommutes` | 3.dashboard.py:69-73 | applying two masks one after the other gives the same rows in either order |
| `LexOrder.LexLess` | 3.dashboard.py:53 | Python's `<` on strings, the order `groupby` sorts its keys by: never holds between a string and itself; `LexOrder.LexTransitive` and `LexOrder.LexTotal` make it a strict total order |
| `Counts.ValueCounts` | 3.dashboard.py:57 | `value_counts()`: each distinct value once, with its exact number of occurrences, every value of the input present, counts non-increasing; the order of equal counts is not promised |
| `Counts.CountsSumToLength` | 3.dashboard.py:57 | the counts of any such tally add up to the number of values counted |
| `SiteOptions.LaunchSiteOptions` | 3.dashboard.py:21-24 | the first option is "All Sites". The others list every site of the table exactly once, with label equal to value and no repeats, in order of non-increasing number of launches |
| `SiteOptions.ValueCountsIndexOptions` | 3.dashboard.py:23 | one option per index value of the site column's `value_counts()` lists each site once, most launches first |
| `PieChart.AddTo` | 3.dashboard.py:53 | adding a row's `class` to its group: the group sites become the old ones plus this site, and the grand total grows by the added value |
| `PieChart.AddToKeepsOrder` | 3.dashboard.py:53 | adding to a group keeps the groups strictly sorted by site name |
| `PieChart.AddToLookup` | 3.dashboard.py:53 | adding to a site's group changes that site's total by the added value and no other site's total |
| `PieChart.GroupSuccesses` | 3.dashboard.py:53 | `groupby(['Launch Site'])["class"].sum()`: groups strictly sorted by site name, exactly the sites present in the table, totals adding up to the table's successes |
| `PieChart.GroupSuccessesLookup` | 3.dashboard.py:53 | the group total found for any site is the number of successful launches at that site (0 for a site with no rows) |
| `PieChart.AllSitesPie` | 3.dashboard.py:52-54 | the "All Sites" pie has one slice per site present, in site order. Each slice is that site's successes, and together they are all successes in the table |
| `PieChart.AllSitesExample` | 3.dashboard.py:53 | rows listed with site "B" first still group as `[("A", 1), ("B", 1)]` |
| `PieChart.AssignNames` | 3.dashboard.py:58 | assigning a list of names: a frame with no rows gets one name-only row per name. Otherwise the names go to the rows by position, keeping each row's outcome and count, and the assignment fails with `LengthMismatch(names, rows)` exactly when the lengths differ |
| `PieChart.BinaryValueCounts` | 3.dashboard.py:57 | `value_counts()` of a binary column has one row per outcome present: two rows exactly when both outcomes occur |
| `PieChart.SitePie` | 3.dashboard.py:57-58 | the single-site branch as written: any error is `LengthMismatch(2, 1)`, and any pie has two rows named "Failure" then "Success". `PieChart.SitePieSucceedsIff` states when each case arises, and `PieChart.SitePieSlices` states the counts |
| `PieChart.SitePieSucceedsIff` | 3.dashboard.py:57-58 | the single-site pie fails exactly when the site has launches of one outcome only, and then with `LengthMismatch(2, 1)`. It is the two name-only rows "Failure" and "Success" exactly when the site is not in the table |
| `PieChart.SitePieSlices` | 3.dashboard.py:57-58 | when the site has both outcomes, the single-site pie exists and has two counted rows with different outcomes. Each holds the exact count of its outcome at the site, the larger count comes first, the names are "Failure" then "Success" by position, and the counts sum to the site's launches |
| `PieChart.SitePieWhenCountsDiffer` | 3.dashboard.py:57-58 | with both outcomes present and unequal counts, the pie is exactly `[more frequent outcome named "Failure", other named "Success"]`; successes outnumbering failures are called "Failure" |
| `PieChart.MislabelledExample` | 3.dashboard.py:58 | at a site with outcomes 1, 1, 0 the pie is `[Slice(1, 2, "Failure"), Slice(0, 1, "Success")]` |
| `PieChart.SingleOutcomeExample` | 3.dashboard.py:58 | at a site with one successful launch and nothing else the pie fails with `LengthMismatch(2, 1)` |
| `PieChart.UnknownSiteExample` | 3.dashboard.py:57-58 | in a table of one launch at site "A", selecting site "Z" gives the name-only rows "Failure" and "Success" |
| `PieChart.SiteRecordsEmpty` | 3.dashboard.py:57 | selecting a site's rows gives none exactly when the site is not in the site column |
| `PieChart.SitePieByOutcome` | 3.dashboard.py:56-59 | the corrected single-site pie: a site without launches is `NoLaunches`. Otherwise there are two counted rows, outcome 0 named "Failure" and outcome 1 named "Success", whose counts add up to the site's launches |
| `PieChart.SitePieByOutcomeExists` | 3.dashboard.py:56-59 | the corrected pie exists exactly for the sites in the table, whatever their outcomes; any other site is an error |
| `PieChart.SitePieByOutcomeCorrect` | 3.dashboard.py:56-59 | for a site in the table, the corrected pie has two slices. "Failure" is outcome 0 with its count, "Success" is outcome 1 with the same total as the site's "All Sites" slice, and together they are all of the site's launches |
| `PieChart.AgreesWhenFailuresDominate` | 3.dashboard.py:57-58 | where failures outnumber successes and both occur, the program's pie equals the corrected one |
| `PieChart.PieChart` | 3.dashboard.py:51-60 | "All Sites" gives exactly the grouped totals of `GroupSuccesses`, which add up to all successes. Any other selection fails exactly when that site has launches of one outcome only, with `LengthMismatch(2, 1)`. Otherwise it gives that site's pie from `SitePie`: the two name-only rows for a site not in the table |
| `ScatterChart.Scatter` | 3.dashboard.py:68-73 | the rows handed to the scatter plot: no more than the table, each strictly inside the payload range and from the selected site unless "All Sites" is selected. `ScatterChart.ScatterKeepsExactlyPlotted` and `ScatterChart.ScatterKeepsOrder` pin the result down exactly |
| `ScatterChart.ScatterIsOneMask` | 3.dashboard.py:69-73 | the payload mask followed by the site mask selects the same rows as one mask with both conditions. For "All Sites" only the payload condition applies |
| `ScatterChart.ScatterKeepsExactlyPlotted` | 3.dashboard.py:69-73 | a row is plotted, with all of its copies, exactly when `low < payload < high` and (all sites are selected or it is from the selected site). A row whose payload equals either bound is never plotted |
| `ScatterChart.ScatterKeepsOrder` | 3.dashboard.py:69-73 | the plotted rows are a subsequence of the table, in table order |
| `ScatterChart.ScatterFiltersCommute` | 3.dashboard.py:69-73 | for one site, the result equals filtering that site's rows by payload: the order of the two filters does not matter |
| `ScatterChart.ScatterEmptyRange` | 3.dashboard.py:68-69 | `low >= high` plots nothing, for every selection |
| `ScatterChart.InitialRangeDropsExtremes` | 3.dashboard.py:39 | with the slider at its initial `[min_payload, max_payload]`, a launch with the minimum or the maximum payload is not plotted |
| `ScatterChart.BoundaryExample` | 3.dashboard.py:68-69 | launches at 500, 1500 and 800 kg: range (500, 1500) plots only the 800 kg launch. Range (400, 1600) plots all three, or both site-"A" launches when "A" is selected |

## Findings

| source | as written | input that shows it | evidently intended | confidence | as-written member | corrected member |
|---|---|---|---|---|---|---|
| 3.dashboard.py:57-58 | `value_counts()` puts the more frequent outcome first. The names `["Failure", "Success"]` are then attached by position, so "Failure" names the more frequent outcome | one site with launches of class 1, 1, 0: the pie shows "Failure" 2 and "Success" 1 | "Failure" counts class 0 and "Success" counts class 1 | high; not executed | `PieChart.MislabelledExample` | `PieChart.SitePieByOutcomeCorrect` |
| 3.dashboard.py:57-58 | assigning the two-element name list to a frame with one row raises a length-mismatch error, so no pie is drawn | one site whose only launch has class 1: `LengthMismatch(2, 1)` | a two-slice pie with a zero count | high; not executed | `PieChart.SingleOutcomeExample` | `PieChart.SitePieByOutcomeCorrect` |

Both corrected behaviours are in `PieChart.SitePieByOutcome`. It also reports a site with no launches as `NoLaunches`, where the code draws an empty pie. `PieChart.PieChart` keeps the program's behaviour (`PieChart.SitePie`), because it models what the dashboard does. `PieChart.AgreesWhenFailuresDominate` gives the inputs on which the two agree.

## Left out

- Reading `spacex_launch_geo.csv` (line 12) is file I/O. The table is an input sequence, and a missing file or column is not modelled.
- The Dash application, its layout and widget properties (lines 18, 26-43) are not modelled. This includes the slider's 0-10000 domain in steps of 1000, which the callbacks do not enforce.
- The `@app.callback` wiring and `run_server` (lines 47-49, 64-66, 79-80) are not modelled: they are event dispatch and an HTTP server.
- The `px.pie` / `px.scatter` figure construction and titles (lines 54, 59, 71, 74) are not modelled. The model returns the data handed to them: the grouped totals, the named slices, or the plotted rows. The booster version travels with each plotted row.
- NaN payloads and NaN outcomes are not modelled: payloads are `real`, outcomes are 0 or 1. The NaN that pandas returns for the bounds of an empty table is modelled as `None`.
- A cleared dropdown (value `None`) is not modelled: the selection is always a string.
- pandas row-index labels, and the reindexing of the boolean key at line 73, are not modelled. Only the resulting rows and their order are.
- Counts.ValueCounts: ties between equal counts are kept in order of first appearance. pandas does not promise any tie order, so no contract depends on this choice.
- In pandas 2 and later, `value_counts().to_frame()` names its column `count` rather than `class`, so `px.pie(values='class')` at line 59 would fail. The model follows the older naming the code was written for.
- A site literally named "All Sites" is treated as the sentinel by both callbacks, as in the code.
