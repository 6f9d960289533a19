# Print-report dashboard: aggregation and access core

This project models the core of a dashboard for printed citizen-service reports. Wards and cities record each printed form as a row in a `reports` table: ward, day, hour of printing, procedure, domain, gender, age group, authentication type and a count.

The frontend (`fe/src/utils/dataProcessing.js`) receives these rows and does two things:

- **Filter.** It narrows the rows to a selected ward and date range.
- **Aggregate.** It groups the rows for each chart:
  - prints per day or week;
  - average prints per opening hour;
  - prints per domain;
  - top-K procedures with an "other" bucket;
  - the CCCD/QR split and the male/female split;
  - an age-group by gender table;
  - an hour/age/gender scatter, which splits age groups into random ages.

Two chart components post-process these results:

- The top-procedures treemap (`TopProceduresChart.js`) folds everything past the top K+1 into one grey "Khác" tile.
- The field-frequency bar chart (`FieldFrequencyChart.js`) keeps five bars, folds the rest and attaches percentages.

The backend (`be/main.py`) provides two operations modelled here:

- **Role-checked user creation.** Only an admin may create a user. A city user needs a city id. A ward user needs a city id and a ward id.
- **Export query builder.** It chooses the report rows a caller may export:
  - an admin may export everything, or one ward;
  - a city user may export their own city, or one ward of it;
  - a ward user may export only their own ward.
  Every export is restricted to printing hours 7 to 17. An optional date range, the ordering, and limit/offset are then appended.

Modules, one per file:

| module | file | models |
|---|---|---|
| `Wrappers` | wrappers.dfy | `Option` |
| `Collections` | collections.dfy | JavaScript building blocks: `filter`, `reduce` sums, `sort` (stable, descending), and objects and `Map`s used as insertion-ordered tallies. |
| `Reports` | reports.dfy | The report row; `count \|\| 1` versus `count ?? 1`; `filterDashboardData` |
| `TimeSeries` | time_series.dfy | `getPrintsByTimeData` |
| `Hourly` | hourly.dfy | `getHourlyData`, using the source's two fixed-size arrays |
| `Breakdowns` | breakdowns.dfy | `getDomainData`, `getAuthTypeData`, `getGenderData` |
| `AgeGender` | age_gender.dfy | `getAgeGenderDistribution` |
| `Text` | text.dfy | Decimal rendering of counts in labels |
| `Procedures` | procedures.dfy | `getTopProcedures` |
| `Scatter` | scatter.dfy | `getScatterData` |
| `TreemapChart` | treemap.dfy | `processData` of the top-procedures treemap |
| `FieldChart` | field_chart.dfy | `processedData` of the field-frequency chart |
| `Accounts` | accounts.dfy | `create_user` validation |
| `Export` | export.dfy | `export_reports` scope selection and query assembly |

Modelling conventions:

- **Missing fields.** A missing field (undefined or null) is `None`. A string field is truthy when it is `Some` and non-empty.
- **Days.** Days are integers whose order is the order of their `YYYY-MM-DD` strings. A week bucket is the day divided by seven. `dayjs(undefined)` is the current day, which is passed in as `today`.
- **JavaScript objects and `Map`s** become insertion-ordered association lists (`Collections.Tally`). `Object.entries` and `Map.values` list keys in first-insertion order.
- **Randomness.** `Math.random()` becomes a parameter `random: nat -> real`, read at increasing positions. `IsRandom` states that every value lies in [0, 1). Each randomised operation returns the values it drew and the next unread position.
- **Loops** that update local arrays, sets or objects are methods with loop invariants. Each is proved equal to a specification function. The properties are then proved about that function.

## Model

| member | source | states |
|---|---|---|
| Collections.GroupSum | fe/src/utils/dataProcessing.js:140-145 | The `forEach` loop that adds each keyed item's weight into an object produces exactly the insertion-ordered tally of the items. |
| Collections.TallySpec | fe/src/utils/dataProcessing.js:140-147 | The tally lists each key of the items once, and only those keys. Each key's value is the sum of its items' weights, and the values add up to the weight of all keyed items. |
| Collections.SortDescSpec | fe/src/utils/dataProcessing.js:149 | The descending sort orders by rank, keeps the sum of any weight, and keeps distinct keys distinct. |
| Collections.SortedTallySpec | fe/src/utils/dataProcessing.js:147-149 | The same tally facts hold after sorting the tally by any rank. |
| Reports.FilterDashboardData | fe/src/utils/dataProcessing.js:31-57 | Every row is kept, with its multiplicity, exactly when it matches the selected ward (`String(ward_id ?? wardId)`, "undefined" when missing) and its day lies inclusively in the range. Each filter applies only when set; with neither set, the input is returned unchanged. |
| Reports.FilterDashboardDataConcat | fe/src/utils/dataProcessing.js:33-56 | The filter is order-preserving: filtering a concatenation concatenates the filtered parts. |
| Reports.CountOr1 | fe/src/utils/dataProcessing.js:109 | `count \|\| 1` is never 0: it agrees with `count ?? 1` except that a count of 0 weighs 1 rather than 0. |
| Reports.CountOrDefault | fe/src/utils/dataProcessing.js:276 | `count ?? 1` is 0 exactly when the count is 0, and non-negative for a non-negative count. |
| TimeSeries.PrintsByTimeSpec | fe/src/utils/dataProcessing.js:59-88 | The series lists strictly ascending buckets, each exactly once. The bucket is the day, or the week when grouping by "Tuần", of `date \|\| print_time`; rows with neither are skipped. Each bucket's count is the sum of `count \|\| 1` over its rows, and the counts add up to the weight of all dated rows. |
| TimeSeries.PrintsByTime | fe/src/utils/dataProcessing.js:59-88 | There are never more points than rows. |
| TimeSeries.SumAsPoints | fe/src/utils/dataProcessing.js:82-87 | Mapping entries to time points keeps the total. |
| Hourly.GetHourlyData | fe/src/utils/dataProcessing.js:90-134 | There are eleven slots, for hours 7 to 17. Each slot holds its hour, the hour's total of `count \|\| 1`, the number of distinct dates seen at that hour, and the average (total / days, 0 when no day). The slot totals add up to the weight of all rows printed in opening hours. The method is proved against the reference `HourTotal`/`DatesAt`. |
| Hourly.OpenHour | fe/src/utils/dataProcessing.js:102-106 | A row counts at an hour only when it has one within 7 to 17; any other row is skipped. |
| Hourly.HourTotal | fe/src/utils/dataProcessing.js:109-112 | An hour's total is the sum of `count \|\| 1` over the rows at that hour, and 0 outside opening hours. |
| Hourly.DatesAt | fe/src/utils/dataProcessing.js:114-117 | An hour outside opening hours has no dates. |
| Hourly.CountRow | fe/src/utils/dataProcessing.js:101-119 | One forEach step on the two arrays and the seen set. It matches the reference tallies of the rows processed so far, extended by one. |
| Hourly.MakeSlot | fe/src/utils/dataProcessing.js:122-133 | A slot's average times its active days equals its total; with no active day the average is 0. |
| Hourly.SeenMeansDate | fe/src/utils/dataProcessing.js:114-117 | A (date, hour) key is in the seen set iff the hour is open and some row at that hour has that date. |
| Hourly.HourStep | fe/src/utils/dataProcessing.js:112 | Adding a row adds its weight to its own hour only, and adds its date to that hour's dates. |
| Hourly.SeenStep | fe/src/utils/dataProcessing.js:114-118 | Adding a row adds exactly its (date, hour) key to the seen set, and only when its hour is open. |
| Hourly.TotalsStep | fe/src/utils/dataProcessing.js:108-112 | Adding a row updates only the array cell at `hour - 7`. |
| Hourly.ActiveDaysStep | fe/src/utils/dataProcessing.js:114-118 | Adding a row increments `activeDays[hour - 7]` exactly when its date is new for that hour. |
| Hourly.ActiveDaysKept | fe/src/utils/dataProcessing.js:103-106 | A row outside opening hours, or one whose date was already seen at that hour, leaves the active days unchanged. |
| Hourly.ActiveDaysGrow | fe/src/utils/dataProcessing.js:115-117 | A row with a date new for its open hour increments that hour's active days. |
| Hourly.ActiveDaysAt | fe/src/utils/dataProcessing.js:115-117 | An hour's number of distinct dates grows by one exactly for a row at that hour with an unseen date. |
| Hourly.ActiveDaysAtMostRows | fe/src/utils/dataProcessing.js:114-117 | An hour has at most as many active days as it has rows. |
| Hourly.ActiveIffRows | fe/src/utils/dataProcessing.js:124-129 | An hour has no active day iff it has no row, so the average is 0 only for empty hours. |
| Hourly.TotalPositiveIffRows | fe/src/utils/dataProcessing.js:109-112 | When counts are non-negative, an hour's total is at least its number of rows, and it is positive iff the hour has a row. |
| Hourly.HoursTotalStep | fe/src/utils/dataProcessing.js:101-119 | The sum over a range of hours grows by the last row's weight exactly when its hour falls in the range. |
| Hourly.NoRowsNoTotal | fe/src/utils/dataProcessing.js:97 | With no rows, every hour's total is 0. |
| Hourly.HourlyConservesCount | fe/src/utils/dataProcessing.js:101-133 | The hourly totals for hours 7 to 17 add up to the weight of all rows printed in opening hours. |
| Hourly.HoursTotalSplit | fe/src/utils/dataProcessing.js:97-112 | The sum of the totals over hours lo..hi is the sum over lo..hi-1 plus hour hi. |
| Hourly.SlotPrefixTotal | fe/src/utils/dataProcessing.js:122-133 | The first m slots carry the totals of hours 7 to 6 + m. |
| Hourly.SlotsConserveCount | fe/src/utils/dataProcessing.js:122-133 | Eleven slots carrying the hours' totals add up to the weight of all rows printed in opening hours. |
| Breakdowns.GetDomainData | fe/src/utils/dataProcessing.js:136-150 | The result has one entry per truthy domain, no duplicates, each valued at its sum of `count \|\| 1`. It is sorted descending, and the values add up to the total over domained rows. |
| Breakdowns.DomainNames | fe/src/utils/dataProcessing.js:141-144 | A name is listed iff some row has it as a non-empty domain. |
| Breakdowns.PositiveSlices | fe/src/utils/dataProcessing.js:215-221 | Exactly the entries with a positive value become slices, each carrying the grand total for its percentage. |
| Breakdowns.PositiveSlicesSum | fe/src/utils/dataProcessing.js:215-216 | Dropping zero entries does not change the sum. |
| Breakdowns.PairPieSum | fe/src/utils/dataProcessing.js:200-221 | A two-entry pie with non-negative values sums to the two values. |
| Breakdowns.ClosedPairPie | fe/src/utils/dataProcessing.js:205-221 | When every item maps to one of two keys or is ignored and weights are non-negative, the running total equals the two counters together, and the positive slices add up to that total. With a positive total the slice percentages therefore add up to 100; with a total of 0 there are no slices. |
| Breakdowns.AuthKey | fe/src/utils/dataProcessing.js:208-209 | A missing or empty type counts as CCCD. Otherwise a row is CCCD iff its upper-cased type is "CCCD", QR iff it is "QR", and ignored otherwise. |
| Breakdowns.GetAuthTypeData | fe/src/utils/dataProcessing.js:196-222 | The result is the positive slices of the CCCD and QR counters, in that order, with the running total. |
| Breakdowns.AuthPair | fe/src/utils/dataProcessing.js:209 | Every row maps to CCCD, to QR or to nothing. |
| Breakdowns.AuthSlicesSum | fe/src/utils/dataProcessing.js:205-221 | The running total equals CCCD plus QR, and the slices sum to the total. |
| Breakdowns.GetGenderData | fe/src/utils/dataProcessing.js:224-255 | The result is the positive slices of the Nam and Nữ counters, with the running total. |
| Breakdowns.CountGender | fe/src/utils/dataProcessing.js:235-246 | One step adds the row's weight to its gender's counter and to the total. Other genders are ignored. |
| Breakdowns.GenderPair | fe/src/utils/dataProcessing.js:239-245 | Every row maps to Nam, to Nữ or to nothing. |
| Breakdowns.GenderSlicesSum | fe/src/utils/dataProcessing.js:233-254 | The running total equals Nam plus Nữ, and the slices sum to the total. |
| AgeGender.TrimStart | fe/src/utils/dataProcessing.js:267 | Removes exactly the leading JavaScript whitespace. |
| AgeGender.TrimEnd | fe/src/utils/dataProcessing.js:267 | Removes exactly the trailing JavaScript whitespace. |
| AgeGender.TrimSpec | fe/src/utils/dataProcessing.js:267 | A trimmed string is no longer than the original and starts and ends with non-whitespace; a string that already does is its own trim. |
| AgeGender.AgeKeySpec | fe/src/utils/dataProcessing.js:267-270 | A record is counted only with an age group and a gender; its key is the non-empty trimmed age group. |
| AgeGender.Listed | fe/src/utils/dataProcessing.js:286-295 | Lists at most one row per fixed age group. |
| AgeGender.GetAgeGenderDistribution | fe/src/utils/dataProcessing.js:257-296 | The rows are the fixed age groups, in order, whose accumulated total is positive. The result is proved equal to the reference table. |
| AgeGender.AddToResult | fe/src/utils/dataProcessing.js:266-283 | One forEach step equals the reference accumulation of one record. |
| AgeGender.AgeTableStep | fe/src/utils/dataProcessing.js:266-283 | The table of rows plus one record is the table accumulated by that record. |
| AgeGender.AgeTableGrow | fe/src/utils/dataProcessing.js:272-282 | A record with a trimmed age group and a gender accumulates into its group. |
| AgeGender.GrowAt | fe/src/utils/dataProcessing.js:272-282 | Pointwise: after one more record, every key holds the same row as the one-step accumulation. |
| AgeGender.AgeKeysGrow | fe/src/utils/dataProcessing.js:266-274 | One more counted record adds exactly its group to the set of groups. |
| AgeGender.AgeTableKeys | fe/src/utils/dataProcessing.js:272-274 | Every group in the table is non-empty and labelled with its own name, and every counted record's group is in the table. |
| AgeGender.AccumulateSpec | fe/src/utils/dataProcessing.js:270-282 | An uncounted record leaves the table unchanged. A counted one adds its group if new, changes no other group, and adds `count ?? 1` to its group's total. |
| AgeGender.GroupRowStep | fe/src/utils/dataProcessing.js:272-282 | A record changes only its own group's male, female and total. |
| AgeGender.GroupAbsent | fe/src/utils/dataProcessing.js:272-274 | A group never seen is all zeros. |
| AgeGender.ListedMembers | fe/src/utils/dataProcessing.js:286-291 | Every listed row is the accumulated row of a fixed group, and its total is positive. |
| AgeGender.ListedOrdered | fe/src/utils/dataProcessing.js:286 | Listed rows follow the fixed order. |
| AgeGender.ListedComplete | fe/src/utils/dataProcessing.js:287 | Every fixed group with a positive total is listed. |
| AgeGender.AgeDistributionSpec | fe/src/utils/dataProcessing.js:257-296 | Each row of the result is its group's sum over the data with a positive total. Rows follow the order `<18, 18-30, 31-50, >50`. Every such group with a positive `count ?? 1` total appears. |
| AgeGender.GroupSplits | fe/src/utils/dataProcessing.js:276-282 | Male plus female plus unrecognised genders equals the group total. With non-negative counts, male plus female never exceeds it. |
| AgeGender.ZeroCountWeighsNothing | fe/src/utils/dataProcessing.js:276 | A count of 0 weighs 0 here (`??`), but 1 in the domain chart (`\|\|`). |
| Text.NatToString | fe/src/utils/dataProcessing.js:185 | A count renders as decimal digits with no leading zero. |
| Text.NatToStringRoundTrip | fe/src/utils/dataProcessing.js:185 | Parsing a rendered count gives it back. |
| Text.NatToStringInjective | fe/src/utils/dataProcessing.js:185-186 | Different counts give different labels. |
| Procedures.Shorten | fe/src/utils/dataProcessing.js:177 | A name longer than 30 characters keeps its first 30 characters followed by "..."; a shorter name is unchanged. |
| Procedures.ProcedureKey | fe/src/utils/dataProcessing.js:158 | A truthy procedure is its own key; a missing or empty one becomes "Không xác định". The key is never empty. |
| Procedures.SortedProcedures | fe/src/utils/dataProcessing.js:157-166 | There are at most as many procedures as rows. |
| Procedures.OtherRow | fe/src/utils/dataProcessing.js:184-190 | The "other" row is flagged, carries the remaining procedures as details and their sum as value, and its full name is the decimal number of those procedures followed by " thủ tục khác". |
| Procedures.GetTopProcedures | fe/src/utils/dataProcessing.js:152-194 | There are at most topK + 1 rows, and none for empty data. |
| Procedures.SortedFacts | fe/src/utils/dataProcessing.js:157-166 | The sorted list has one entry per procedure (a missing one becomes "Không xác định"), valued at its sum of `count \|\| 1`. It is descending with distinct names. |
| Procedures.TopRowsSpec | fe/src/utils/dataProcessing.js:169-180 | The first min(topK, n) rows are the heaviest procedures, with their true totals, descending and distinct. |
| Procedures.OtherRowSpec | fe/src/utils/dataProcessing.js:172-191 | An "other" row is added iff the remaining procedures weigh more than 0. It carries their sum, and its details are exactly those procedures, none heavier than a top row. |
| Procedures.RestFacts | fe/src/utils/dataProcessing.js:172 | Each procedure past position k weighs no more than any top row and is not among them. |
| Procedures.OtherRowsSum | fe/src/utils/dataProcessing.js:183-191 | The optional "other" row carries the whole remainder. |
| Procedures.ProcedureTotal | fe/src/utils/dataProcessing.js:157-161 | Grouping by procedure loses no row: the groups sum to the total weight. |
| Procedures.TopProceduresTotal | fe/src/utils/dataProcessing.js:152-194 | When counts are non-negative, the rows add up to the weight of all input rows. |
| Procedures.RowsTotal | fe/src/utils/dataProcessing.js:169-191 | When counts are non-negative, the rows add up to the sorted totals. |
| Procedures.SplitRowsSum | fe/src/utils/dataProcessing.js:169-191 | Top rows plus the "other" row sum to the sorted list. |
| Procedures.TailWeighs | fe/src/utils/dataProcessing.js:159 | When counts are non-negative, every procedure weighs at least 1. |
| Procedures.RowsSum | fe/src/utils/dataProcessing.js:176-180 | Mapping entries to rows keeps the total. |
| Procedures.TopRowsSum | fe/src/utils/dataProcessing.js:169-180 | The top rows carry the sum of the first k sorted entries. |
| Procedures.OtherIffMore | fe/src/utils/dataProcessing.js:183 | When counts are non-negative, an "other" row appears iff there are more than topK procedures. |
| Scatter.DrawRange | fe/src/utils/dataProcessing.js:306-309 | `Math.floor(Math.random() * m)` lies in [0, m). |
| Scatter.RandomAgeFits | fe/src/utils/dataProcessing.js:304-312 | A random age lies in its group's range (12-17, 18-30, 31-50, 51-80; 25 otherwise) and uses at most one draw. |
| Scatter.PartsFrom | fe/src/utils/dataProcessing.js:327-338 | From iteration i of n the loop makes n - i parts (none when i >= n) and never reads a random number twice. |
| Scatter.PartsFit | fe/src/utils/dataProcessing.js:327-338 | When the remaining count covers the remaining parts, every part gets at least 1 print and an age inside its group. |
| Scatter.PartsSum | fe/src/utils/dataProcessing.js:327-338 | The parts take exactly the remaining prints. |
| Scatter.SplitCount | fe/src/utils/dataProcessing.js:323-338 | A row's count is split into at most max(0, count) parts, after drawing the number of parts. |
| Scatter.SplitAges | fe/src/utils/dataProcessing.js:323-338 | The loop that splits a count into random ages equals the reference split, including the random numbers drawn. |
| Scatter.PartsFromSpec | fe/src/utils/dataProcessing.js:327-338 | From part i onwards, each part has count at least 1 and an age in range, and the parts sum to what remains. |
| Scatter.SplitSpec | fe/src/utils/dataProcessing.js:321-338 | A count below 1 gives no parts. Otherwise there are between min(count, 3) and min(count, 5) parts, each at least 1 with an age in its group, summing to the count. |
| Scatter.ExpandRow | fe/src/utils/dataProcessing.js:315-361 | One row's forEach body equals the reference expansion. |
| Scatter.RowPoints | fe/src/utils/dataProcessing.js:315-360 | A row that is not plotted gives no point; only a row with an age group and no age draws random numbers. |
| Scatter.Expand | fe/src/utils/dataProcessing.js:314-361 | Expansion reads the random numbers forward from its start. |
| Scatter.RowPointsSpec | fe/src/utils/dataProcessing.js:339-360 | One row's points are in hours 7 to 18 with a gender, and they carry exactly the row's plotted weight. |
| Scatter.ExpandSpec | fe/src/utils/dataProcessing.js:314-361 | The expanded points are in hours 7 to 18 with a gender, and they carry the total plotted weight. |
| Scatter.PointsSum | fe/src/utils/dataProcessing.js:339-348 | Turning parts into points keeps the count. |
| Scatter.ExpandWithoutRandom | fe/src/utils/dataProcessing.js:349-360 | Without a row needing an age draw, the expansion does not depend on the random numbers. |
| Scatter.GetScatterData | fe/src/utils/dataProcessing.js:299-378 | The method equals the reference scatter function. |
| Scatter.ScatterOrder | fe/src/utils/dataProcessing.js:363-374 | Points are sorted by hour, with one point per (hour, age, gender). Each point's count is that key's sum over the expanded points. |
| Scatter.ScatterBounds | fe/src/utils/dataProcessing.js:340-374 | Every point is in hours 7 to 18 with a gender, and the counts sum to the total plotted weight. |
| Scatter.ScatterHours | fe/src/utils/dataProcessing.js:340-374 | Every point is in hours 7 to 18 with a gender. |
| Scatter.ScatterTotal | fe/src/utils/dataProcessing.js:339-374 | The point counts sum to the total plotted weight. |
| Scatter.TallyInRange | fe/src/utils/dataProcessing.js:363-374 | Grouping and sorting plotted points keeps every key inside hours 7 to 18 with a gender. |
| Scatter.PointsOfSorted | fe/src/utils/dataProcessing.js:373-374 | The result lists one point per grouped key, in the sorted order. |
| Scatter.SumAsPoints | fe/src/utils/dataProcessing.js:373 | Listing the grouped values keeps the total. |
| Scatter.TotalOfPoints | fe/src/utils/dataProcessing.js:364-371 | Grouping by (hour, age, gender) keeps the total. |
| TreemapChart.PaletteColor | fe/src/components/dashboard/charts/TopProceduresChart.js:9-15 | Colours cycle through the ten-colour palette, which never contains the grey "Khác" colour. |
| TreemapChart.TreemapOf | fe/src/components/dashboard/charts/TopProceduresChart.js:17-58 | Labels, values and colours have equal length, at most topK + 2. The "other" count is the number of positive procedures past the first topK + 1. Empty data gives empty tiles. |
| TreemapChart.ProcessData | fe/src/components/dashboard/charts/TopProceduresChart.js:17-58 | The imperative version equals `TreemapOf`. |
| TreemapChart.FoldOther | fe/src/components/dashboard/charts/TopProceduresChart.js:37-48 | The in-place merge or push equals `Fold`. |
| TreemapChart.Fold | fe/src/components/dashboard/charts/TopProceduresChart.js:37-48 | The tiles stay aligned. One tile is added only when there is no "Khác" label and something was folded. When a tile is merged or pushed, the values grow by exactly the folded value. |
| TreemapChart.KeptTiles | fe/src/components/dashboard/charts/TopProceduresChart.js:26-33 | The first k procedures become k aligned tiles with palette (never grey) colours, carrying those procedures' sum. |
| TreemapChart.FirstOther | fe/src/components/dashboard/charts/TopProceduresChart.js:37 | `findIndex` returns the first label starting with "Khác", or nothing iff there is no such label. |
| TreemapChart.FindOther | fe/src/components/dashboard/charts/TopProceduresChart.js:37 | The loop returns -1 iff there is no such label, and otherwise the first index. |
| TreemapChart.FirstOtherAt | fe/src/components/dashboard/charts/TopProceduresChart.js:37 | A "Khác" label preceded by none is the one found. |
| TreemapChart.TreemapSum | fe/src/components/dashboard/charts/TopProceduresChart.js:21-48 | The tile values sum to the sum of the positive procedures: nothing is lost or doubled by the merge. |
| TreemapChart.SplitSum | fe/src/components/dashboard/charts/TopProceduresChart.js:26-48 | The kept tiles plus the folded rest sum to all procedures. |
| TreemapChart.ValuesSum | fe/src/components/dashboard/charts/TopProceduresChart.js:32 | Mapping procedures to values keeps the total. |
| TreemapChart.TreemapTiles | fe/src/components/dashboard/charts/TopProceduresChart.js:26-48 | Every tile is either the grey "Khác" tile, or the j-th ranked procedure in palette colour j. A grey tile exists iff a kept label starts with "Khác" or some procedures were folded. There is at most one grey tile. |
| TreemapChart.FoldTiles | fe/src/components/dashboard/charts/TopProceduresChart.js:35-48 | The same tile facts, for any kept prefix and folded count. |
| FieldChart.PaletteColor | fe/src/components/dashboard/charts/chartColors.js:1-21 | Colours cycle through the fifteen-colour palette, which never contains grey. |
| FieldChart.ProcessedData | fe/src/components/dashboard/charts/FieldFrequencyChart.js:10-44 | Empty data gives no rows. There are at most six rows. The "other" row is grey and row i otherwise has palette colour i. |
| FieldChart.RankedSpec | fe/src/components/dashboard/charts/FieldFrequencyChart.js:14-16 | Ranking keeps exactly the fields with a positive value not named "Khác", sorted descending. |
| FieldChart.Bars | fe/src/components/dashboard/charts/FieldFrequencyChart.js:19-34 | The top five fields keep their own bars. With more than five fields one extra bar, and only that one, is the "other" bar, and every folded field is among its details. |
| FieldChart.Percentage | fe/src/components/dashboard/charts/FieldFrequencyChart.js:41 | With a positive total the percentage times the total is 100 times the value, and it lies in 0..100 for a value within the total; with no positive total it is 0. |
| FieldChart.Decorate | fe/src/components/dashboard/charts/FieldFrequencyChart.js:39-43 | Decorating a bar keeps its name, value, flag and details, colours it grey iff it is the "other" bar, and attaches its percentage of the total. |
| FieldChart.TopBars | fe/src/components/dashboard/charts/FieldFrequencyChart.js:14-19 | The first min(5, n) rows are the heaviest positive fields, not "Khác", in descending order. |
| FieldChart.OtherBar | fe/src/components/dashboard/charts/FieldFrequencyChart.js:20-33 | With more than five fields, the last row is the "other" row. It names how many were folded, and carries them as details and their sum as its value. |
| FieldChart.FoldedFields | fe/src/components/dashboard/charts/FieldFrequencyChart.js:20 | Every folded field qualifies and weighs no more than any top field. |
| FieldChart.FieldSum | fe/src/components/dashboard/charts/FieldFrequencyChart.js:14-37 | The rows sum to the sum of the qualifying fields. |
| FieldChart.BarsSum | fe/src/components/dashboard/charts/FieldFrequencyChart.js:23-34 | Folding keeps the total. |
| FieldChart.TopBarsSum | fe/src/components/dashboard/charts/FieldFrequencyChart.js:27 | Bars copied from fields keep the total. |
| FieldChart.DecoratedSum | fe/src/components/dashboard/charts/FieldFrequencyChart.js:39-43 | Decoration keeps the total. |
| FieldChart.FieldShares | fe/src/components/dashboard/charts/FieldFrequencyChart.js:37-43 | Each row's percentage is its share of the rows' total. With a positive total, the percentages add up to 100. |
| FieldChart.SharesAddUp | fe/src/components/dashboard/charts/FieldFrequencyChart.js:37-41 | Shares of a positive total add up to 100. |
| FieldChart.ScaleBack | fe/src/components/dashboard/charts/FieldFrequencyChart.js:37-41 | Shares whose product with a positive total is 100 times that total are exactly 100. |
| FieldChart.SharesSum | fe/src/components/dashboard/charts/FieldFrequencyChart.js:41 | The sum of the shares times the total is 100 times the sum of the values. |
| FieldChart.PercentageScales | fe/src/components/dashboard/charts/FieldFrequencyChart.js:41 | One share times the total is 100 times the value. |
| Accounts.UserCreate.constructor | be/main.py:121-126 | The request body holds exactly the fields given. |
| Accounts.Decide | be/main.py:133-149 | A caller who is not an admin is refused with 403. A stored user has an admin caller and ids that fit its role. Any other refusal is 400. |
| Accounts.ValidateNewUser | be/main.py:133-149 | The in-place validation matches `Decide`. It clears the ids an admin user does not keep and the ward id of a city user, leaves username, password and role alone, and changes nothing on refusal. |
| Accounts.AdminRequestStored | be/main.py:137-149 | For an admin caller, a request is stored iff the role is admin; or city with a truthy city id; or ward with truthy city and ward ids. Stored ids are the given ones, except the cleared ones. A refusal is 403 for a non-admin caller and 400 otherwise. |
| Accounts.FittingRequestKept | be/main.py:137-147 | A request that already fits its role is stored unchanged. |
| Export.ExportStaysInScope | be/main.py:304-367 | Every exported row is in opening hours. A city caller's rows belong to their city, and a ward caller's rows to their ward. |
| Export.ScopeByRole | be/main.py:304-367 | The rows selected for each role and ward parameter, with 404 for an unknown ward and 403 for another city's ward. A role other than admin or city ignores the parameter. |
| Export.ScopeFilter | be/main.py:304-367 | The scope branch gives the access decision of `ScopeOf`, the scope's WHERE clauses and parameters, and as many placeholders as parameters. |
| Export.ScopeOf | be/main.py:304-367 | Only a city caller naming a ward can be refused, with 403 or 404. An admin is always granted. A granted city caller selects only their city's rows, and any other caller only their own ward's rows. |
| Export.ScopePlaceholders | be/main.py:304-367 | Each scope's WHERE clauses have one placeholder per parameter. |
| Export.ExportQuery | be/main.py:369-375 | The query has one placeholder per parameter, ends with ORDER/LIMIT/OFFSET preceded by the date clause exactly when both dates are given, and its last two parameters are limit and offset. |
| Export.FinishQuery | be/main.py:369-375 | Appends the date clauses when both dates are truthy, then ORDER/LIMIT/OFFSET. Parameters are appended in step with the placeholders. |
| Export.BuildExportQuery | be/main.py:304-375 | The request is refused iff the scope is denied, with its status. Otherwise the query is the scope's query with the date range and paging, and its placeholders match its parameters one to one. |
| Export.PlaceholdersAppend | be/main.py:369-375 | Appending SQL text adds the placeholder counts. |
| Export.ExportStatus | be/main.py:326-337 | The intended status: 404 iff a city caller names an unknown ward; 403 iff they name a ward of another city; 200 iff access is granted. |
| Export.DeniedExportsReport500 | be/main.py:333-337 | As written, both a 404 and a 403 refusal reach the client as 500, because the `except` at be/main.py:568-570 catches them. |
| Export.ExportStatusAsWritten | be/main.py:326-337 | As written, the status is 200 when access is granted and 500 otherwise. |
| Export.AsWrittenHidesRefusals | be/main.py:568-570 | As written, the status is 500 exactly when the intended status is 403 or 404. |

## Left out

- **Non-array inputs.** The guards returning `[]` for non-array inputs are not modelled: inputs are always sequences.
- **Column aliases.** The Vietnamese column aliases (`item['Ngày']`, `item['Giờ']`, `item['Giới tính']`, `item['Tuổi']`) are assumed to be absent. Each row carries the English field only.
- **Non-string and non-numeric fields.** Fields of unexpected types (a numeric domain, a string count, an age of `null`) are not modelled. `None` stands for both undefined and null, although `isNaN(null)` is false in the scatter.
- **Week order.** The source sorts buckets by `dayjs(key).valueOf()`. A week key such as `2024-W05` may not parse, giving `NaN` and an unspecified order. The model assumes chronological order.
- **Falsy print times.** A `print_time` of 0 or the empty string is falsy, so the time series skips the row. The model records such a value as `None`. A `date` of 0 or the empty string is likewise `None`.
- **Date parsing.** Invalid dates, time zones, the `instanceof Date` branch and `dayjs` formatting are left out. A day is an integer, and a week bucket is the day divided by seven rather than the ISO week string. `weekStart`/`weekEnd` of the time series are not modelled.
- **Object key order.** `Object.entries` lists integer-like keys (for example a procedure named "12") before other keys. The model always uses insertion order.
- **Percent strings.** `toFixed(1)` percentage strings and the `percent` / `malePercent` / `femalePercent` fields are left out. The field chart's percentage is an exact `real`, and its `'0.0'` case for a zero total is 0.0.
- **Floating point.** Counts are unbounded integers, and the hourly average is an exact real.
- **Case mapping.** `toUpperCase`/`toLowerCase` are modelled on ASCII letters and the Vietnamese letters the comparisons need. Other Unicode case mappings are not.
- **String length.** `Procedures.Shorten` counts characters, not UTF-16 code units.
- **Object spreads.** The `...item` spreads are modelled by the named fields the charts read. Extra fields are not carried along.
- **`getBoxPlotData`.** It is not part of this model.
- **Chart rendering.** React, `useMemo`/`useEffect`, the Plotly drawing code and the treemap's `parents` and `allProcedures` fields are not modelled. The empty-input treemap result lacks `otherCount`/`otherValue` in the source; the model uses 0 for them.
- **Negative topK.** topK is a natural number, so negative or fractional slice bounds are not modelled.
- **Scatter hour.** The scatter takes the hour as parsed. A string hour, for which `isNaN` and the comparisons coerce, is not modelled.
- **Backend I/O.** HTTP, JWT authentication, password hashing, the `INSERT` of the new user, database connections and executing SQL are not modelled. The ward lookup of the export is a map from ward id to its optional city id, and a query is kept as its clause list and parameters.
- **Excel/CSV export.** The pandas/Excel/CSV writing of the export is not modelled.
- **Missing dictionary keys.** A `user` dictionary lacking `city_id` or `ward_id` (a `KeyError` in Python) is not modelled: the caller always carries both.
- Procedures.TopProceduresTotal: requires non-negative counts. With a negative count the remainder can be 0 or negative, so no "other" row is added and the rows do not sum to the input.
- Procedures.RowsTotal: requires non-negative counts, for the same reason.
- Breakdowns.AuthSlicesSum: requires non-negative counts, because the source drops counters that are not positive.
- Breakdowns.GenderSlicesSum: requires non-negative counts, because the source drops counters that are not positive.

## Findings

| source | as written | input that shows it | evidently intended | confidence | as-written member | corrected member |
|---|---|---|---|---|---|---|
| be/main.py:333-337 | The 404 (unknown ward) and 403 (another city's ward) refusals are raised inside the `try` whose `except Exception` (be/main.py:568-570) turns every exception into a 500 "Export báo cáo thất bại". | A city user (city 1) exporting ward 5 gets 500. This holds both when ward 5 does not exist and when it belongs to city 2. | 404 and 403 reach the client | not executed | Export.DeniedExportsReport500 | Export.ExportStatus |
