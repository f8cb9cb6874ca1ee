# HealthGuard air-quality dashboard: a Dafny model of its core

HealthGuard is an air-quality dashboard for Kolkata. This project models the logic underneath it and proves properties of that model. The model covers these parts:

- **Analytics server** (`server/analytics.js`). From the daily and hourly CSV rows of a city it computes:
  - `calculateTrends`: monthly buckets, pollutant statistics and the time-range filter;
  - `forecastAQI`: moving average plus regression, with bounds and confidence;
  - `analyzePatterns`: seasonal, weekly and hourly buckets, and pollutant correlations through `calculateCorrelation`;
  - `assessRisk`: category distribution, risk level, unhealthy share and `getHealthRecommendations`.
- **Stations server** (`server/index.js`):
  - the five-minute station cache;
  - the test that accepts an AQICN feed as a Kolkata station;
  - the fallback to the mock station list;
  - the lookup of a station by id.
- **Alert panel** (`src/components/AlertSection.tsx`):
  - threshold rules over the live sensor metrics;
  - notifications, with five-minute suppression per metric type;
  - the add, toggle, delete, mark-as-read and clear handlers, and the unread count.
- **ThingSpeak client.** `src/hooks/useThingSpeakData.ts` holds the latest metrics, the AQI-code mapping and the per-field trend series. `src/services/thingspeakService.ts` supplies `parseFieldValue`, the field-number guard and the latest-entry choice.
- **Display classifiers.** These are `getAQIColor` and the cigarette equivalent (`src/services/aqiService.ts`), and `getRiskLevel` with its two colour lookups (`src/utils/MockData.ts`).

## How it is modelled

The model has one module per source file:

- `Trends`, `Forecast`, `Patterns`, `Correlation` and `Risk` for `server/analytics.js`;
- `Stations` for `server/index.js`;
- `Alerts`, `ThingSpeakData`, `ThingSpeakService`, `AqiService` and `MockData` for the front end.

Shared modules hold what several files need:

- `Wrappers`: `Option` and `Result`;
- `Text`: decimal strings, `split`, `includes`, ASCII lower-casing and string order;
- `JsNumbers`: JavaScript's `parseInt` and `parseFloat` on decimal text;
- `Numeric`: sums, mean, max/min, `Math.round` to one or two decimals, percentages, variance;
- `Collections`: the grouping dictionary the `forEach` loops fill, a stable sort, `filter`, `slice(-n)`;
- `AnalyticsRows`: the CSV row.

The code that loops or keeps state is imperative Dafny:

- The analytics loops are methods proved equal to specification functions:
  - the dictionary-filling `forEach` passes (`Collections.GroupByKey`);
  - the category count;
  - the correlation accumulator and the pair loops;
  - the forecast loop.
- The stations cache is a class whose `GetStations` method overwrites its two fields.
- The alert panel is a class holding the rule and notification lists; its handlers are methods.
- The ThingSpeak hook is a class holding metrics, series, loading flag, error and update time.

Inputs from outside are parameters:

- the CSV rows and ThingSpeak feeds (`seq` values);
- the AQICN replies (a function from location to reply);
- "now" (milliseconds, and the ISO text for mock stations);
- the calendar arithmetic that gives "N months before now";
- the timestamp formatter;
- the library routines `Math.sqrt`, `median` and `linearRegression`. These are fields of a `Library` value; the only fact assumed of them is that the square root of 0 is 0 and of a non-negative number is non-negative.

JavaScript numbers are modelled as exact reals. `NaN` from a failed parse is `None`.

`days` reaches `forecastAQI` as `parseInt(days)` (server/index.js:424). A non-numeric value gives `NaN`, and then the forecast loop runs zero times. The model's `days` is an integer, and any `days` of 0 or less gives the same empty forecast, so `NaN` is covered by that case.

The month keys are sorted with `localeCompare` (server/analytics.js:97). The model takes `localeCompare` to agree with code-unit order on keys made of ASCII digits and a hyphen.

A throw from simple-statistics `mean` of an empty list propagates out of `calculateTrends` and `analyzePatterns`. It is modelled as an `Err` result: `EmptyBucket`, `EmptyMonthBucket` or `EmptyHourBucket`.

## Model

| member | source | states |
|---|---|---|
| AnalyticsRows.CityRows | server/analytics.js:38 | every kept row has exactly the requested city |
| Numeric.MaxOf | server/analytics.js:94 | `Math.max` of a non-empty list is one of its values and no value exceeds it |
| Numeric.MinOf | server/analytics.js:95 | `Math.min` of a non-empty list is one of its values and no value is below it |
| Numeric.Mean | server/analytics.js:93 | the mean of a non-empty list lies between its least and greatest value |
| Numeric.Round1 | server/analytics.js:197 | `Math.round(x*10)/10` is within half a tenth of x |
| Numeric.Round2 | server/analytics.js:325 | `Math.round(x*100)/100` is within half a hundredth of x |
| Numeric.Round1Monotone | server/analytics.js:197-199 | rounding to one decimal preserves order, so lower ≤ predicted ≤ upper survives rounding |
| Numeric.Round1OfTenths | server/analytics.js:197 | a value already in tenths is unchanged by rounding |
| Numeric.Percentage | server/analytics.js:400 | a count out of a larger total gives a share within [0, 100] |
| Numeric.Variance | server/analytics.js:113 | the population variance is never negative |
| Numeric.StandardDeviation | server/analytics.js:113 | the standard deviation is never negative for a lawful square root |
| Numeric.StandardDeviationOfConstant | server/analytics.js:191 | a constant list has standard deviation 0 |
| Collections.GroupKeys | server/analytics.js:76-89 | the dictionary the forEach fills has exactly the keys that occur, each listed once, in first-seen order |
| Collections.GroupHasKey | server/analytics.js:81-83 | a key gets a bucket exactly when some row has it, even if none of its values parse |
| Collections.GroupCovers | server/analytics.js:81-83 | every row's key is in the dictionary's key order |
| Collections.GroupValues | server/analytics.js:77-89 | each bucket holds the parsed values of the rows with that key, in row order |
| Collections.GroupByKey | server/analytics.js:77-89 | the imperative forEach leaves exactly the dictionary of the specification function |
| Collections.Entries | server/analytics.js:91 | `Object.entries` lists every key with its bucket in insertion order |
| Collections.GroupEntries | server/analytics.js:91-96 | entries have distinct keys that occur in the rows, carry those keys' values, and every row's key has an entry |
| Collections.GroupEmptyBucket | server/analytics.js:91-93 | some bucket is empty exactly when some row's key has no parseable value |
| Collections.InsertByCorrect | server/analytics.js:97 | inserting into a sorted list keeps it sorted and adds exactly that element |
| Collections.SortByCorrect | server/analytics.js:97 | the sort yields a sorted permutation of its input |
| Collections.SortByMembers | server/analytics.js:97 | the sort keeps exactly the elements it is given |
| Collections.InsertByAll | server/analytics.js:97 | a property of every element survives an insertion |
| Collections.SortByAll | server/analytics.js:97 | a property of every element survives the sort |
| Collections.InsertByStrict | server/analytics.js:97 | inserting an element with a key of its own keeps keys strictly increasing |
| Collections.SortByStrict | server/analytics.js:97 | sorting a list with distinct keys makes the keys strictly increase |
| Collections.Filter | server/analytics.js:38 | a filter keeps only elements satisfying the test and never adds any |
| Collections.FilterKeeps | server/analytics.js:53-56 | an element survives a filter exactly when it was present and passes the test |
| Collections.Present | server/analytics.js:71-73 | the parsed values are never more than the rows |
| Collections.PresentMembers | server/analytics.js:71-73 | a value is present exactly when some row parses to it |
| Collections.LastN | server/analytics.js:156 | `slice(-n)` keeps the last min(n, length) elements in order |
| Text.NatToDecimal | server/analytics.js:79 | `String(n)` is non-empty digits without a leading zero |
| Text.NatToDecimalRoundTrip | server/analytics.js:79 | the digits read back as the number |
| Text.IntToDecimal | server/index.js:265 | `toString` of an integer is never empty |
| Text.IntToDecimalInjective | server/index.js:265 | different integers give different ids |
| Text.PadStart2 | server/analytics.js:79 | `padStart(2, '0')` leaves two-character text alone and left-pads shorter text with zeros |
| Text.Before | server/analytics.js:289 | `split(c)[0]` is the prefix up to the first c |
| Text.After | server/analytics.js:289 | the text after the first c exists exactly when c occurs, and prefix, c and rest rebuild the text; cut at its next space it is `split(' ')[1]` |
| Text.SplitAt | server/analytics.js:289 | splitting `a + c + b` at the first c gives a and b |
| Text.LowerAscii | server/index.js:238-239 | lower-casing keeps the length, leaves no capital letter and touches nothing else |
| Text.DigitsOrder | server/analytics.js:97 | for equal-length digit strings, string order is numeric order |
| Text.LexLessAppend | server/analytics.js:97 | a string-order difference in equal-length prefixes decides the comparison |
| Text.LexLessCommonPrefix | server/analytics.js:97 | a common prefix does not change string order |
| JsNumbers.TrimStart | src/services/thingspeakService.ts:176 | parsing skips exactly the leading white space |
| JsNumbers.DigitRun | server/analytics.js:289 | the scanned digits are the longest digit prefix |
| JsNumbers.ParseIntRoundTrip | server/analytics.js:302 | `parseInt` reads back any decimal integer, whatever non-digit text follows |
| JsNumbers.ScanDecimal | src/services/thingspeakService.ts:176 | a scanned decimal is well formed |
| JsNumbers.ParseFloatOfInteger | src/services/thingspeakService.ts:176 | `parseFloat` reads back a decimal integer followed by text that does not continue the number |
| JsNumbers.ParseFloatDefined | src/services/thingspeakService.ts:176-177 | `parseFloat` succeeds exactly when, after white space and a sign, a digit or a point and a digit follow |
| Trends.MonthsBack | server/analytics.js:43-48 | 1m, 3m and 6m give 1, 3 and 6 months, any other range gives 12 |
| Trends.SelectedRows | server/analytics.js:38-57 | a row is selected exactly when its city matches and, unless the range is all, it is dated at or after the cutoff |
| Trends.PositiveReadings | server/analytics.js:104-106 | the pollutant values kept are all positive |
| Trends.PositiveReadingsEmpty | server/analytics.js:104-108 | no value is kept exactly when no row has a positive parseable reading |
| Trends.CalculateTrends | server/analytics.js:33-134 | the method with its forEach equals the specification of calculateTrends |
| Trends.TrendsWithoutData | server/analytics.js:59-68 | the no-data answer, with average 0 and no trends, comes exactly when no row is selected |
| Trends.TrendsFailOnEmptyMonth | server/analytics.js:76-93 | the call fails exactly when some selected month has no parseable AQI value |
| Trends.MonthlyTrendsFacts | server/analytics.js:91-97 | monthly entries number the buckets and strictly increase by month, so one per bucket; each comes from a non-empty bucket with its mean, max, min and count, and every bucket has one |
| Trends.OrdinalInjective | server/analytics.js:79 | different months have different ordinals |
| Trends.MonthlyTrendsStrict | server/analytics.js:91-97 | one monthly entry per bucket, months strictly increasing |
| Trends.MonthlyTrendsMembers | server/analytics.js:91-96 | each monthly entry is built from its key's non-empty bucket |
| Trends.MonthlyTrendsCover | server/analytics.js:91-96 | every key of the dictionary has a monthly entry |
| Trends.TrendsMonthlyList | server/analytics.js:91-97 | the trends list is the monthly summary of the selected rows' grouping |
| Trends.TrendsMonthlyOrder | server/analytics.js:91-97 | the months of the trends strictly increase, so no month appears twice |
| Trends.TrendsMonthly | server/analytics.js:76-97 | trends strictly increase by month, so no month twice; each holds the statistics of that month's values; every selected row's month appears |
| Trends.PollutantTableEntries | server/analytics.js:100-116 | a pollutant appears exactly when some row has a positive reading, with the statistics of those readings |
| Trends.FourDigitYear | server/analytics.js:79 | a four-digit year prints as four digits that read back as the year |
| Trends.TwoDigitMonth | server/analytics.js:79 | the padded month is two digits reading back as the month |
| Trends.MonthKeysOrdered | server/analytics.js:97 | for four-digit years, code-unit string order on month keys is chronological order |
| Trends.MonthKeysDistinct | server/analytics.js:79 | distinct months have distinct keys |
| Forecast.DateOrdered | server/analytics.js:142-144 | the city's rows sorted by date: sorted, and a permutation of the city rows |
| Forecast.PointBounds | server/analytics.js:188-201 | each entry's lower bound is at least 0 and its upper bound at least its prediction |
| Forecast.ForecastLoop | server/analytics.js:182-202 | the loop pushes exactly the entries for days 1 to `days` |
| Forecast.PointsShape | server/analytics.js:182-202 | entry k is day k+1, predicts the rounded blend, has ordered bounds and the confidence of the standard deviation |
| Forecast.Project | server/analytics.js:170-211 | the projection branch equals its specification |
| Forecast.ForecastAQI | server/analytics.js:137-216 | the method equals the specification of forecastAQI |
| Forecast.ForecastBailOut | server/analytics.js:146-168 | method none exactly without city rows; insufficient-data exactly with fewer than 7 parsed values in the last 30; both give an empty forecast |
| Forecast.ProjectionEntries | server/analytics.js:170-211 | the projection uses the mean of the last 7 values and the regression; current AQI is the last value; trend follows the slope's sign; strength is non-negative |
| Forecast.ForecastProjects | server/analytics.js:155-168 | a projection happens only with at least 7 parsed values among at most 30 recent rows |
| Correlation.Min | server/analytics.js:346 | `Math.min` of two lengths is one of them and no larger than either |
| Correlation.Accumulate | server/analytics.js:350-360 | the loop's three accumulators are the centred co-sums |
| Correlation.Correlate | server/analytics.js:345-364 | the method equals the specification of calculateCorrelation |
| Correlation.CoSumSquares | server/analytics.js:358-359 | the denominators' sums of squares are never negative |
| Correlation.CoSumSwap | server/analytics.js:357 | the numerator is symmetric in its two lists |
| Correlation.CoSumCentred | server/analytics.js:355-357 | a list equal to its mean contributes a zero numerator |
| Correlation.CorrelationSymmetric | server/analytics.js:345-364 | the correlation of x with y equals that of y with x |
| Correlation.CorrelationOfConstant | server/analytics.js:345-364 | a constant list correlates 0 with anything |
| Correlation.CorrelationZeroDenominator | server/analytics.js:362-363 | a zero denominator gives 0 |
| Patterns.HourTextOfTime | server/analytics.js:289 | the hour text of `date hh:...` is the hour digits |
| Patterns.TimeAfterDate | server/analytics.js:289 | the text after the first space of `date time` is the time part |
| Patterns.HourDigitsOfTime | server/analytics.js:289 | the hour digits are what precedes the time's first colon |
| Patterns.HourOfTimestamp | server/analytics.js:289 | a timestamp with hour h is bucketed under h |
| Patterns.HourOfDateOnly | server/analytics.js:289 | a date without a time part is bucketed under hour 0 |
| Patterns.PairEntry | server/analytics.js:314-327 | one inner-loop pass adds that pair's entry if both series have more than 10 values |
| Patterns.InnerPairs | server/analytics.js:313-328 | the inner loop appends the row of pairs for i |
| Patterns.CorrelationPairs | server/analytics.js:312-329 | the two loops produce exactly the specified correlation list |
| Patterns.RowFromMembers | server/analytics.js:313-328 | an entry of row a comes from a later pollutant b |
| Patterns.CorrelationsFromMembers | server/analytics.js:312-329 | an entry comes from some pair a < b |
| Patterns.RowFromLength | server/analytics.js:313-328 | row a has at most one entry per later pollutant |
| Patterns.CorrelationsFromLength | server/analytics.js:312-329 | the pairs from i onward are bounded by their number |
| Patterns.CorrelationCount | server/analytics.js:309-329 | there are at most 10 correlations |
| Patterns.CorrelationsArePairs | server/analytics.js:312-329 | every correlation belongs to a pair a < b of the five pollutants |
| Patterns.CorrelationPairPresent | server/analytics.js:317-327 | a pair appears exactly when both pollutants have more than 10 parsed values |
| Patterns.CorrelationPairValue | server/analytics.js:319-325 | a listed pair carries the rounded correlation of the two series cut to the shorter length |
| Patterns.EntryAtPair | server/analytics.js:317-326 | an entry for a pair names the pair and carries its value |
| Patterns.CorrelatedDistinct | server/analytics.js:309 | the five pollutant names are distinct |
| Patterns.AnalyzePatterns | server/analytics.js:219-342 | the method with its forEach passes and loops equals the specification of analyzePatterns |
| Patterns.PatternsWithoutData | server/analytics.js:229-235 | the no-data answer comes exactly when the city has no daily rows |
| Patterns.PatternsFail | server/analytics.js:239-305 | failure on a month exactly when some month has no parseable AQI; on an hour exactly when months are fine and some hour has none |
| Patterns.SummaryParts | server/analytics.js:331-337 | a summary is assembled from the month, weekday and hour groupings of the city's rows |
| Patterns.SeasonalOfEntries | server/analytics.js:254-258 | each seasonal entry is a bucket's name, mean and count, in insertion order |
| Patterns.HourlyOfEntries | server/analytics.js:301-305 | hourly entries number the buckets and strictly increase by hour, so one per bucket, each with its mean and count |
| Patterns.HourlyOfStrict | server/analytics.js:301-305 | one hour entry per bucket, hours strictly increasing |
| Patterns.HourlyOfMembers | server/analytics.js:301-305 | an entry is in the hour list exactly when it is some bucket's hour, mean and count |
| Patterns.SeasonalValues | server/analytics.js:238-258 | each month entry has the mean and count of that month's AQI values |
| Patterns.SeasonalEntryAt | server/analytics.js:254-258 | the month entry at a position has its month's mean and count, from a month that occurs |
| Patterns.SeasonalCovers | server/analytics.js:238-258 | every month of the rows has exactly one entry |
| Patterns.WeeklyValues | server/analytics.js:261-281 | each weekday entry has that day's mean and count, or 0 when it has no value |
| Patterns.WeeklyCovers | server/analytics.js:261-281 | every weekday of the rows has exactly one entry |
| Patterns.HourlyValues | server/analytics.js:284-306 | each hour entry has the mean and count of that hour's AQI values |
| Patterns.HourlyCovers | server/analytics.js:284-306 | every hour of the rows has an entry |
| Patterns.SeasonalEntries | server/analytics.js:238-258 | seasonal entries: one per month present, distinct, each with the mean and count of that month's values |
| Patterns.WeeklyEntries | server/analytics.js:261-281 | weekly entries: one per weekday present, distinct, average 0 for a day with no parsed value |
| Patterns.HourlyEntries | server/analytics.js:284-306 | hourly entries: strictly increasing by hour, so one per hour present, each with mean and count |
| Patterns.HourRowsParse | server/analytics.js:287-289 | every hourly row kept has an hour |
| Risk.CountOf | server/analytics.js:390-395 | a category's count never exceeds the number of rows |
| Risk.CategoryIndex | server/analytics.js:392 | `hasOwnProperty` finds a bucket exactly when it is one of the six categories |
| Risk.CategoriesDistinct | server/analytics.js:381-388 | the six categories are distinct |
| Risk.CountCategories | server/analytics.js:390-395 | the counting loop yields each category's count |
| Risk.CountsWithinTotal | server/analytics.js:390-402 | the six counts add up to at most the number of rows |
| Risk.LevelBands | server/analytics.js:413-428 | the five levels' average bands, and a higher average never gives a milder level |
| Risk.RecommendationCount | server/analytics.js:454-487 | three pieces of advice up to moderate, then four and five |
| Risk.AssessRisk | server/analytics.js:367-451 | the method with its counting loop equals the specification of assessRisk |
| Risk.RiskWithoutData | server/analytics.js:372-378 | unknown risk exactly when the city has no rows |
| Risk.RiskDistribution | server/analytics.js:397-436 | six categories in order with their counts, percentages within [0, 100], total at most the rows, unhealthy share within [0, 100] |
| Risk.RiskLevelFacts | server/analytics.js:404-445 | the average of the last 30 rows lies between their least and greatest value (0 if none), and level, impact and advice follow it |
| Stations.MockIdNumbers | server/index.js:24-193 | the mock list has 15 stations with ids 1 to 15 |
| Stations.MockIdsDistinct | server/index.js:24-193 | the mock ids are distinct |
| Stations.MockStationsInBox | server/index.js:24-193 | every mock station lies in the Kolkata box |
| Stations.TextOr | server/index.js:235 | `x \|\| fallback` on text: the text unless missing or empty |
| Stations.NumberOr | server/index.js:236-237 | `x \|\| fallback` on numbers: the number unless missing or zero |
| Stations.NonZero | server/index.js:270-271 | `v \|\| null`: kept exactly when present and non-zero |
| Stations.SurvivorsFrom | server/index.js:283-284 | at most one survivor per location, each from an accepted ok reply |
| Stations.SurvivorsAppend | server/index.js:283-284 | the survivors of two location lists are those of the first, then those of the second |
| Stations.SurvivorsFacts | server/index.js:283-284 | survivors come from accepted ok replies, lie in the box, are at most one per location and keep location order |
| Stations.FetchFallsBack | server/index.js:196-297 | the result is never empty: the mock list without configuration or survivors, the survivors otherwise |
| Stations.KeywordKept | server/index.js:249-252 | a lower-case keyword found in a text is found after lower-casing |
| Stations.LocationKeyword | server/index.js:208-219 | every fixed location mentions kolkata or howrah |
| Stations.AcceptedInsideBox | server/index.js:242-255 | for the fixed locations, a feed is accepted exactly when it lies in the box |
| Stations.Find | server/index.js:345 | `find` returns the first station with the id, or none exactly when no station has it |
| Stations.FindAbsent | server/index.js:345 | `find` comes back empty exactly when no station has the id |
| Stations.LookupFacts | server/index.js:343-363 | a found station has the id; 404 exactly when neither cache nor fetched list has it; the cache wins |
| Stations.StationCache.constructor | server/index.js:17-21 | the cache starts empty |
| Stations.StationCache.GetStations | server/index.js:300-327 | a fresh cache answers unchanged; otherwise the fetched list is stored with the time, and from then on the cache serves exactly the requests less than five minutes later (none when that time is 0); count is the list's length |
| Stations.StationCache.StationById | server/index.js:339-368 | the handler's answer is the cache-then-fetch lookup |
| ThingSpeakService.ParseFieldValue | src/services/thingspeakService.ts:174-177 | missing, empty or unparseable text gives the default, otherwise the parsed number |
| ThingSpeakService.ParseFieldValueOfInteger | src/services/thingspeakService.ts:175-177 | an integer field reads back as that integer, so "0" gives 0, not the default |
| ThingSpeakService.ParseFieldValueOfText | src/services/thingspeakService.ts:176-177 | text that does not start like a number gives the default |
| ThingSpeakService.FieldRequest | src/services/thingspeakService.ts:118-129 | a field number outside 1..8 is rejected before any request; otherwise the request URL |
| ThingSpeakService.LatestEntry | src/services/thingspeakService.ts:163-171 | the first feed, or null exactly for an empty list or a failed read |
| ThingSpeakData.AqiFromCode | src/hooks/useThingSpeakData.ts:52-56 | code 1, 2, 3 gives 50, 100, 150; any other code gives 0 |
| ThingSpeakData.MetricsDefaults | src/hooks/useThingSpeakData.ts:52-67 | a missing or empty code gives AQI 50, missing or empty CO2 400, other missing or empty readings 0; pathogen risk is 0 |
| ThingSpeakData.Reversed | src/hooks/useThingSpeakData.ts:106 | the reversed list holds the feeds from the last to the first |
| ThingSpeakData.PointsOfFacts | src/hooks/useThingSpeakData.ts:118-127 | a series is no longer than its feeds and splits as they do |
| ThingSpeakData.PointsOfLength | src/hooks/useThingSpeakData.ts:118-127 | a series has at most one point per feed |
| ThingSpeakData.PointsOfMembers | src/hooks/useThingSpeakData.ts:118-127 | every point comes from a feed that sent the field, with its time and parsed value |
| ThingSpeakData.FieldSeries | src/hooks/useThingSpeakData.ts:84-90 | the single-field series has one point per feed, in reversed order, default 0 |
| ThingSpeakData.AllSeriesFacts | src/hooks/useThingSpeakData.ts:109-129 | all-trends state has exactly fields 1 to 6, each a reversed-order series no longer than the feeds |
| ThingSpeakData.CollectTrends | src/hooks/useThingSpeakData.ts:106-127 | the forEach over reversed feeds builds exactly the six specified series |
| ThingSpeakData.CollectPoints | src/hooks/useThingSpeakData.ts:118-127 | the loop's six variables end as the six series of the feeds it visits |
| ThingSpeakData.ThingSpeakState.constructor | src/hooks/useThingSpeakData.ts:12-40 | metrics all 0, six empty series, loading, no error, no update time |
| ThingSpeakData.ThingSpeakState.FetchLatestData | src/hooks/useThingSpeakData.ts:42-78 | metrics and update time change only for a non-empty feed list; the error follows the outcome; loading ends |
| ThingSpeakData.ThingSpeakState.FetchTrendData | src/hooks/useThingSpeakData.ts:80-100 | only series n is replaced, and only for an accepted field and a successful read |
| ThingSpeakData.ThingSpeakState.FetchAllTrends | src/hooks/useThingSpeakData.ts:102-133 | a successful read replaces the series with the six built ones; a failure leaves them |
| Alerts.ShouldAlertSides | src/components/AlertSection.tsx:173-175 | above fires exactly over the threshold, below exactly under it, the threshold itself never |
| Alerts.Fired | src/components/AlertSection.tsx:140-198 | a pass adds at most one notification per rule |
| Alerts.FiredFacts | src/components/AlertSection.tsx:179-194 | each raised notification is unread, stamped now, has the time as its id and is of a type with no recent notification |
| Alerts.RaiseAll | src/components/AlertSection.tsx:140-194 | the forEach over the rules puts exactly the specified notifications in front of the list it started from |
| Alerts.FiredMembers | src/components/AlertSection.tsx:140-198 | a notification is raised exactly for each enabled rule on its alerting side with no recent same-type notification, with the rule's type, severity and the value read |
| Alerts.NoRepeat | src/components/AlertSection.tsx:179-184 | a type notified within five minutes gets no new notification |
| Alerts.DisabledSilent | src/components/AlertSection.tsx:141 | disabled rules raise nothing |
| Alerts.Unread | src/components/AlertSection.tsx:334 | the unread count is at most the number of notifications |
| Alerts.UnreadAppend | src/components/AlertSection.tsx:334 | unread counts add over concatenation |
| Alerts.UnreadAfterCheck | src/components/AlertSection.tsx:185-195 | each raised notification adds one to the unread count |
| Alerts.Toggled | src/components/AlertSection.tsx:248-251 | toggling flips `enabled` only on rules with the id and changes nothing else |
| Alerts.ToggleTwice | src/components/AlertSection.tsx:248-251 | toggling twice restores the list |
| Alerts.WithoutMembers | src/components/AlertSection.tsx:256-257 | deleting removes exactly the rules with the id |
| Alerts.MarkedRead | src/components/AlertSection.tsx:262-265 | marking sets `read` only on notifications with the id and changes nothing else |
| Alerts.MarkReadLowers | src/components/AlertSection.tsx:262-265 | marking never raises the unread count, lowers it when an unread one matches, and is idempotent |
| Alerts.NewRule | src/components/AlertSection.tsx:221-233 | no rule when the name is empty or the threshold 0 or unset; otherwise an enabled rule with defaults aqi, above, warning |
| Alerts.AlertCenter.constructor | src/components/AlertSection.tsx:55-93 | the four default rules and no notifications |
| Alerts.AlertCenter.CheckThresholds | src/components/AlertSection.tsx:137-219 | without a verified contact nothing changes; otherwise the raised notifications go in front of the old list |
| Alerts.AlertCenter.AddRule | src/components/AlertSection.tsx:221-236 | the form's rule is appended exactly when acceptable |
| Alerts.AlertCenter.ToggleRule | src/components/AlertSection.tsx:248-254 | the rules become the toggled list |
| Alerts.AlertCenter.DeleteRule | src/components/AlertSection.tsx:256-260 | the rules lose those with the id |
| Alerts.AlertCenter.MarkAsRead | src/components/AlertSection.tsx:262-268 | the notifications become the marked list |
| Alerts.AlertCenter.ClearAllNotifications | src/components/AlertSection.tsx:270-273 | the list becomes empty and the unread count 0 |
| AqiService.BackgroundOfBand | src/services/aqiService.ts:63-104 | the background class is the band's colour |
| AqiService.TextOfBand | src/services/aqiService.ts:63-104 | the text class is the band's colour |
| AqiService.BorderOfBand | src/services/aqiService.ts:63-104 | the border class is the band's colour |
| AqiService.OneColorPerBand | src/services/aqiService.ts:63-104 | background, text and border use the band's one colour |
| AqiService.AqiLabels | src/services/aqiService.ts:63-104 | each label is given exactly on its AQI interval |
| AqiService.CigaretteEquivalent | src/services/aqiService.ts:107-110 | 22 times the equivalent is the PM2.5 level |
| AqiService.CigarettesLinear | src/services/aqiService.ts:107-110 | 22 gives one cigarette, and the equivalent is linear |
| MockData.RiskLevelBands | src/utils/MockData.ts:28-38 | AQI: safe to 50, moderate to 100; others: safe to 40, moderate to 70; high above |
| MockData.RiskLevelMonotone | src/utils/MockData.ts:28-38 | a larger value never gets a milder level |
| MockData.RiskColorsDistinct | src/utils/MockData.ts:40-54 | both colour lookups are non-empty on every level and distinct between levels |

## Left out

- Reading CSV files, AQICN and ThingSpeak HTTP requests, Express routing, `localStorage`, browser notifications, `alert` and console logging are left out. Their data enters as parameters.
- The stations handler's 500 path is left out, since `fetchFromAPI` catches every error itself.
- Concurrency is left out. `Promise.all` is modelled as sequential calls, and nothing models a race on the shared cache.
- Timers are left out: polling, and the simulated contact verification in `saveContactInfo`.
- Date parsing is left out. Each row carries its date already parsed: year, month, the weekday `getDay` gives, and the instant. Two pieces of calendar work enter as parameters:
  - `setMonth` for the trends cutoff, as `monthsAgo`;
  - `toLocaleTimeString`, which is `formatTimestamp`, as `format`.

  Invalid dates are not modelled.
- Forecast dates: each forecast entry (`ForecastPoint`) keeps only its day offset from the last analysed row. The `setDate` step and the `date` text `toISOString().split('T')[0]` (server/analytics.js:183-184, 196) are not built. That text is a UTC date, so for a local time it can fall a day off the local calendar date; the model captures neither the text nor that shift.
- Floating point is left out. Doubles are exact reals. `Math.sqrt`, `median` and `linearRegression` are opaque library functions.
- Correlation.Correlate: requires non-empty lists; the empty case is left out. The source would throw in `mean` there, but its only caller passes more than 10 values.
- `Infinity` in `parseFloat` and hexadecimal prefixes in `parseInt` are left out. White space beyond the listed characters, and lower-casing beyond ASCII, are not modelled either.
- Patterns.HourlyEntries: hourly rows whose hour text does not parse are dropped before bucketing. The source would bucket them under the key "NaN", whose order under the `NaN` comparison is not well defined. Two consequences follow, and the model captures neither:
  - When no row of that "NaN" bucket has a parseable AQI, the source's `mean([])` throws (server/analytics.js:303), where the model answers `Ok`.
  - The source tests `hourlyFiltered.length > 0` (server/analytics.js:285) before any row is dropped; the model tests the kept rows (`hours == []` in `Assemble`). So a city whose hourly rows all lack an hour gets an empty hour list in the model, but a "NaN" entry or a throw in the source.
- A `timeRange` naming an `Object.prototype` property such as "constructor" is treated as an unknown range (12 months).
- Trends.MonthKeysOrdered: string order of month keys is proved chronological only for four-digit years.
- The AQICN `aqi` value is modelled as a number or missing. A non-numeric text such as "-" is not modelled.
- Alert messages are kept as structured values (metric name, condition, threshold, value). The `toFixed(1)` text is not built.
- `sendTestNotification`, `getSeverityColor`, `getTypeIcon`, the new-rule form reset and every rendering detail are left out.
- `lastUpdate` in the ThingSpeak hook is kept as the feed's timestamp text rather than a `Date` object.
- `fetchTrendData` with a non-integer field number is not modelled.
- The fallback of `getHealthRecommendations` to the low list is not modelled, since the risk level is always one of the five.
- The forecast's predicted value is not clamped at 0 by the source, and the model follows it. Only the lower bound is clamped.
- The mock generators in `src/utils/MockData.ts` that use `Math.random` are left out.
