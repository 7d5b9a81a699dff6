# Sales dashboard data layer in Dafny

This project models the data-processing layer of two Streamlit sales
dashboards, `dashboard_app.py` (the basic dashboard) and
`professional_dashboard.py` (the professional dashboard), and proves
properties of that model. Both scripts load a table of sales records
(date, region, rep, category, product, amount) and show figures for one
selected day.

- **Day selection.** The records of the selected day, and separately those
  of the day before.
- **KPIs.** The day's total, its order count and its average order value,
  shown only for a non-empty day.
- **Growth rate.** The day-over-day growth rate, which is 0 unless the
  previous day's total is positive.
- **Group-by-sum.** Sales per region, category, rep or product, and per
  calendar day. The regional sales are sorted largest first, and the top 5
  reps and the top 5 products are listed.
- **Simple prediction.** The basic dashboard's two-day average.
- **Question box.** The professional dashboard's keyword question answerer
  (`parse_query`). It lower-cases the question and finds the known rep,
  region and category values that occur in it. It narrows the table to
  them and answers with an order count or a sales total.
- **Forecast inputs.** The professional dashboard's forecast preparation:
  - the history up to the selected day, as one total per calendar day;
  - the 10-day minimum;
  - the in-place `time_index` column;
  - the 7 future indices and dates.

Modules, in dependency order:

- `Records` (records.dfy): the record type, the total of amounts, boolean-mask
  selection and its algebra.
- `Grouping` (grouping.dfy): group-by-sum in first-occurrence order, the
  descending ranking and the top-N cut.
- `DayMetrics` (day_metrics.dfy): day selection, KPIs, growth rate, simple
  prediction, daily totals.
- `QueryMatcher` (query_matcher.dfy): ASCII lower-casing, substring
  containment, `.unique()`, the three matched-value lists, the narrowing
  chain and the answer.
- `Forecast` (forecast.dfy): the forecast inputs. They are specified by the
  function `PlanFor`. They are built imperatively by `Prepare` and
  `BuildPlan`, with the `DailyFrame` class whose `AssignTimeIndex` method adds
  the `time_index` column in place, as the script does.
- `BasicDashboard` (basic_dashboard.dfy) and `ProfessionalDashboard`
  (professional_dashboard.dfy): what each page shows, as one value per page.

Conventions:

- Dates are integer day numbers, so the day before `d` is `d - 1`.
- Amounts are `real`.
- Strings are `seq<char>`.

Two behaviours of the code worth knowing:

- **Region matching.** Rep and category values are lower-cased before the
  substring test. Region values are matched as stored, so matching is
  case-sensitive for regions (professional_dashboard.py:36-38). A region
  value containing an upper-case ASCII letter therefore never matches the
  lower-cased question; see `UpperCaseRegionNeverMatches`.
- **Growth rate.** The growth guard is `> 0`, so a zero or negative previous
  total gives 0% (professional_dashboard.py:99, dashboard_app.py:73-74).

## Model

| member | source | states |
|---|---|---|
| Records.FilterMembers | professional_dashboard.py:87-88 | a boolean-mask selection keeps a record exactly when it is in the table and passes the mask, and is never longer than the table |
| Records.FilterIsSubsequence | professional_dashboard.py:87-88 | a boolean-mask selection keeps the table's order (it is a subsequence of the table) |
| Records.FilterPartition | professional_dashboard.py:87-88 | a selection and the selection by the negated mask hold every record of the table exactly once between them |
| Records.FilterPartitionTotal | professional_dashboard.py:97 | the totals of a selection and of its complement add up to the table's total |
| Records.FilterFilter | professional_dashboard.py:39-45 | selecting twice in a row is one selection by the conjunction of the two masks |
| Records.TotalAppend | professional_dashboard.py:97 | the amount total of two tables put together is the sum of their totals |
| Records.TotalBounds | dashboard_app.py:69 | when every amount lies between lo and hi, the total lies between lo·n and hi·n |
| DayMetrics.DaySelections | professional_dashboard.py:87-88 | the selected-day set holds exactly the records dated that day, the previous-day set exactly those dated the day before, both in the table's order and keeping every copy of a repeated record (the basic dashboard selects the same way, dashboard_app.py:61-62) |
| DayMetrics.DaysDisjoint | professional_dashboard.py:87-88 | the selected-day and previous-day sets share no record |
| DayMetrics.DayKpis | dashboard_app.py:65-80 | KPIs exist exactly when the day has records; the order count is the number of records, the total their sum, and average × count = total (the professional dashboard computes them the same way, professional_dashboard.py:93-103) |
| DayMetrics.AverageWithinAmounts | dashboard_app.py:80 | the average order value lies between the smallest and the largest amount of the day |
| DayMetrics.GrowthRate | professional_dashboard.py:99 | growth is 0 when the previous total is not positive; otherwise previous + previous·growth/100 = today, i.e. growth = (today − previous)/previous × 100 (the basic dashboard's rate is the same, dashboard_app.py:73-74) |
| DayMetrics.GrowthSign | professional_dashboard.py:99 | with a positive previous total, growth is positive, zero or negative exactly when today is above, equal to or below the previous total |
| DayMetrics.SimplePrediction | dashboard_app.py:100-104 | a prediction is made exactly when the previous day has records, and twice the prediction is the sum of the two totals |
| DayMetrics.PredictionBetweenTotals | dashboard_app.py:101 | the prediction lies between the two day totals it averages |
| DayMetrics.DailyTotalsCorrect | dashboard_app.py:95 | the daily history has one entry per distinct calendar day of the table, each holding that day's total, and its entries add up to the table's total (the professional dashboard's history is the same, professional_dashboard.py:127) |
| Grouping.GroupSumCorrect | professional_dashboard.py:121-123 | group-by-sum: keys are distinct and are exactly the column's values in the selection, each key's group holds the total of the records with that key, and the groups add up to the selection's total |
| Grouping.GroupSumEntries | professional_dashboard.py:109 | every group is paired with the exact sum of its records, and there are as many groups as distinct keys |
| Grouping.SortDescendingCorrect | dashboard_app.py:89 | the descending ranking is non-increasing by sum and is a permutation of the groups |
| Grouping.SortDescendingSum | dashboard_app.py:89 | ranking keeps the grand total of the groups |
| Grouping.SortDescendingKeys | dashboard_app.py:89 | ranking keeps the set of keys and keeps the keys distinct |
| Grouping.TopCorrect | professional_dashboard.py:109 | `nlargest(n)` has min(n, number of groups) entries drawn from the groups, in non-increasing order, no omitted group has a larger sum than a listed one, and with at most n groups it is a permutation of them |
| QueryMatcher.LowerFacts | professional_dashboard.py:32 | lower-casing keeps the length, maps each character by ASCII lower-casing, leaves no upper-case ASCII letter and is idempotent |
| QueryMatcher.LowerIdentity | professional_dashboard.py:32 | a string with no upper-case ASCII letter is unchanged by lower-casing |
| QueryMatcher.ContainsOccurrence | professional_dashboard.py:36-38 | Python's substring test holds exactly when the value occurs at some position of the query |
| QueryMatcher.DistinctCorrect | professional_dashboard.py:33-35 | `.unique()` holds exactly the column's values, each once |
| QueryMatcher.MatchesCorrect | professional_dashboard.py:36-38 | a candidate is kept exactly when it (lower-cased for reps and categories) occurs in the query |
| QueryMatcher.FoundValues | professional_dashboard.py:33-38 | a value is matched in a column exactly when some record carries it there and it occurs in the lower-cased query, after lower-casing the value for reps and categories but not for regions |
| QueryMatcher.NarrowIsFilter | professional_dashboard.py:40-45 | one `isin` step, skipped when nothing matched, is the selection "nothing matched or the value is among the matches" |
| QueryMatcher.QueryFilterSelects | professional_dashboard.py:39-45 | the three narrowing steps are one selection by every column that matched something |
| QueryMatcher.QueryFilterMembers | professional_dashboard.py:39-45 | a record survives exactly when, for every column with a match, its value is among the matches; the result keeps the table's order |
| QueryMatcher.NoMatchKeepsAll | professional_dashboard.py:39-45 | when no rep, region or category value occurs in the query, the whole table is kept |
| QueryMatcher.UpperCaseRegionNeverMatches | professional_dashboard.py:32-37 | a region value containing an upper-case ASCII letter is never matched by the lower-cased query |
| QueryMatcher.LowerKeepsPhrase | professional_dashboard.py:46 | lower-casing the query neither creates nor destroys an occurrence of a phrase that has no ASCII letter |
| QueryMatcher.TriggerIgnoresCase | professional_dashboard.py:46 | the count trigger is found in the lower-cased query exactly when it is in the query as typed |
| QueryMatcher.ParseQuery | professional_dashboard.py:31-51 | the answer is an order count exactly when the lower-cased query holds "订单" or "卖了多少笔"; the count is the number of selected records, otherwise the answer is their amount total |
| Forecast.MinOf | professional_dashboard.py:137 | the minimum is an element of the column and bounds it from below |
| Forecast.MaxOf | professional_dashboard.py:142 | the maximum is an element of the column and bounds it from above |
| Forecast.HistoryMembers | professional_dashboard.py:131 | the history holds exactly the records dated on or before the selected day, and its dates are the history days |
| Forecast.PlanThreshold | professional_dashboard.py:134-135 | no forecast is made exactly when fewer than 10 distinct days lie on or before the selected day, and the refusal reports that count |
| Forecast.HistoryDayTotal | professional_dashboard.py:132 | a day's group in the history holds that day's full sales total |
| Forecast.PlanRows | professional_dashboard.py:131-133 | the training rows are at least 10 distinct dates, exactly the history days, each paired with its day's sales total |
| Forecast.OffsetsFacts | professional_dashboard.py:137 | the time index has one entry per date, equal to the date minus the earliest date, non-negative, containing 0, and its maximum is the latest minus the earliest date |
| Forecast.PlanDateRange | professional_dashboard.py:131-137 | the earliest and latest dates are history days that bound all history days, and the latest is at most the selected day |
| Forecast.PlanTimeIndex | professional_dashboard.py:137 | the earliest day has time index 0 and every index is its date minus the earliest date |
| Forecast.PlanFuture | professional_dashboard.py:142-145 | the future indices are the last index plus 1 to 7, the future dates the latest date plus 1 to 7, and each future date lies its future index away from the earliest date |
| Forecast.DailyFrame.constructor | professional_dashboard.py:132-133 | the frame holds the daily dates and sales columns and no time index yet |
| Forecast.DailyFrame.AssignTimeIndex | professional_dashboard.py:137 | the time-index column is added in place, with each entry its date minus the earliest date, and the date and sales columns are unchanged |
| Forecast.BuildPlan | professional_dashboard.py:132-145 | building the frame, checking the 10-day minimum, adding the time index and laying out the future rows gives exactly the specified plan |
| Forecast.Prepare | professional_dashboard.py:131-145 | the forecast inputs prepared for the selected day are exactly the specified plan |
| BasicDashboard.RegionalSalesCorrect | dashboard_app.py:89 | regional sales have one entry per distinct region of the day, each with that region's total, in non-increasing order, adding up to the day's total |
| BasicDashboard.RenderCorrect | dashboard_app.py:41-104 | the no-data warning appears exactly for an empty table, and the no-sales warning exactly when no record is dated that day; otherwise the page shows count, total, growth, regional sales adding up to the day's total, a history adding up to the table's total, and a prediction exactly when the previous day has records |
| BasicDashboard.TwoDayScenario | dashboard_app.py:59-104 | records of 100 and then 150 on two consecutive days, with the second day selected, give total 150, one order, average 150, growth 50% and prediction 125 |
| ProfessionalDashboard.TopGroupsShape | professional_dashboard.py:109-114 | the top reps and products hold min(5, number of distinct values) entries with distinct keys, largest first |
| ProfessionalDashboard.TopGroupsRanking | professional_dashboard.py:109-114 | each top entry is a value present that day with its exact total, and no omitted value has a larger total than any listed one |
| ProfessionalDashboard.RenderCorrect | professional_dashboard.py:56-145 | the warnings appear exactly for an empty table or an empty day; otherwise the page shows count, total, growth, top lists of 1 to 5 entries, a breakdown with exactly one entry per value of the chosen column (distinct keys, as many entries as values) adding up to the day's total, the daily history adding up to the table's total, and the forecast plan for that day |
| ProfessionalDashboard.Ask | professional_dashboard.py:69-71 | an answer appears exactly when a question is submitted over a non-empty table; it counts orders exactly when the question as typed holds a trigger phrase, and covers exactly the records the question selects |

## Left out

- Streamlit widgets, layout, forms, metrics, tabs, charts, the Altair chart
  and `st.stop` are user interface. Only what each page would show is
  modelled, as a value.
- The SQLite loading, the `@st.cache_data(ttl=600)` cache and the loader's
  catch-all that returns an empty table are I/O and framework caching. The
  table is a parameter, and the empty table stands for a failed load.
- The `LinearRegression` fit and its predictions are a floating-point
  least-squares library call. The model stops at the training inputs
  (dates, sales, time index) and the future indices and dates it would be
  given.
- Date parsing and `timedelta` arithmetic are replaced by integer day
  numbers. Time of day is not modelled. The history cut-off at
  professional_dashboard.py:131 compares full timestamps with the selected
  date at midnight; the model compares calendar days.
- Currency and percent formatting of the answers and metrics is left out.
  The answer is the tagged number `OrderCount(n)` or `SalesTotal(x)`.
- Floating-point rounding of amounts, sums and divisions is not modelled;
  amounts are exact reals. NaN amounts are not modelled either.
- `str.lower()` is modelled on ASCII letters only. The trigger phrases and
  the Chinese text in the questions are unaffected by it.
- Grouping: pandas returns groups in sorted key order; the model returns
  them in order of first occurrence. The properties proved do not depend on
  that order. Ties in `nlargest` and in `sort_values` may be broken in a
  different order than pandas does.
- The copied frame (`data_df.copy()`, `.copy()` at line 131) and the column
  rename at line 133 have no effect on the values and are not modelled.
