# Energy service core, modelled in Dafny

This project models the computational core of an energy service. The service reads the
half-hourly generation mix of the national grid and answers two questions:

- **Daily generation mix.** For today and the following days: the average share of every
  fuel type that occurs that day, sorted from largest to smallest, and the day's clean energy
  percentage (the rounded sum of the clean fuels' averages).
- **Optimal charging window.** Given a number of hours, the window of consecutive
  30-minute intervals with the highest clean share. The search covers a fixed horizon that
  begins on a half-hour slot boundary: the current revision starts at the boundary after
  the next one (10:15 → 11:00), the earlier revision at the next one (10:15 → 10:30). The
  answer is the chosen window's start, its end and its rounded mean clean share.

The service exists in two revisions, and both are modelled:

- `EnergyServiceImpl` is the current revision: configurable days and horizon, and a guard
  for "no window found".
- `EnergyServiceLegacy` is the earlier `EnergyService` class: three days, 48 hours, a 1 to
  6 hour check, its own copy of the clean set, a different snapping rule, and no guard.

Modules:

- `FuelTypes`: the nine-value fuel enumeration, its declaration order and its wire tags.
- `CleanFuels`: the clean set, its classification and its iteration order.
- `Records`: the feed's records, the DTOs and the exceptions the service lets escape.
- `Rounding`: `round2`.
- `Time`: the small part of `java.time` that is used.
- `Windows`: an interval's clean share, the window sums, and the nested scan that both
  revisions run (`ScanWindows`, a method with loop invariants proved against `WindowSum`).
- `DailyMix`: filtering, grouping, averaging, sorting and the per-day summary.
- `EnergyServiceImpl` and `EnergyServiceLegacy`: the two service revisions.

The client's answer is a parameter `fetched: Option<CarbonIntensityResponse>`, where `None`
is a null response. The current date and instant are parameters too. Percentages are
`real`.

## Model

| member | source | states |
|---|---|---|
| FuelTypes.Ordinal | src/main/java/com/energy_app/model/enumeration/FuelType.java:5-31 | a constant's ordinal is its position in the declaration order |
| FuelTypes.AllFuelsComplete | src/main/java/com/energy_app/model/enumeration/FuelType.java:5-31 | there are exactly nine constants, each listed once, in the order GAS, COAL, BIOMASS, NUCLEAR, HYDRO, WIND, SOLAR, IMPORTS, OTHER |
| FuelTypes.Tag | src/main/java/com/energy_app/model/enumeration/FuelType.java:6-30 | the `@JsonProperty` tag of each constant |
| FuelTypes.FromTag | src/main/java/com/energy_app/model/enumeration/FuelType.java:6-30 | a tag that decodes decodes to the constant whose tag it is; unknown tags are rejected |
| FuelTypes.Lower | src/main/java/com/energy_app/model/enumeration/FuelType.java:6-30 | proof helper: ASCII lowercasing keeps the length |
| FuelTypes.TagIsLowercaseName | src/main/java/com/energy_app/model/enumeration/FuelType.java:6-30 | every wire tag is the lowercase form of the constant's name |
| FuelTypes.TagRoundTrip | src/main/java/com/energy_app/model/enumeration/FuelType.java:6-30 | decoding a constant's tag gives the constant back |
| FuelTypes.TagInjective | src/main/java/com/energy_app/model/enumeration/FuelType.java:6-30 | different constants have different tags |
| CleanFuels.IsClean | src/main/java/com/energy_app/config/CleanFuels.java:11-17 | membership in `CLEAN` = {BIOMASS, NUCLEAR, HYDRO, WIND, SOLAR} |
| CleanFuels.IterationOrder | src/main/java/com/energy_app/config/CleanFuels.java:11-17 | an `EnumSet` iterates its members in declaration order |
| CleanFuels.IterationOrderFacts | src/main/java/com/energy_app/config/CleanFuels.java:11-17 | iterating an enum set visits exactly its members, in increasing ordinal |
| CleanFuels.KeepMembers | src/main/java/com/energy_app/config/CleanFuels.java:11-17 | the filtered list holds exactly the list's members that belong to the set |
| CleanFuels.KeepIncreasing | src/main/java/com/energy_app/config/CleanFuels.java:11-17 | filtering an ordinal-sorted list keeps it sorted |
| CleanFuels.KeepCons | src/main/java/com/energy_app/config/CleanFuels.java:11-17 | one step of iterating an enum set: the head is visited when it is a member |
| CleanFuels.CleanIterationOrder | src/main/java/com/energy_app/config/CleanFuels.java:11-17 | CLEAN is iterated as BIOMASS, NUCLEAR, HYDRO, WIND, SOLAR |
| CleanFuels.CleanTail | src/main/java/com/energy_app/config/CleanFuels.java:11-17 | proof helper: of HYDRO, WIND, SOLAR, IMPORTS, OTHER the iteration keeps HYDRO, WIND, SOLAR |
| CleanFuels.CleanPartition | src/main/java/com/energy_app/config/CleanFuels.java:11-17 | a fuel is clean exactly when it is not GAS, COAL, IMPORTS or OTHER |
| Rounding.Round2 | src/main/java/com/energy_app/service/EnergyServiceImpl.java:127-129 | `round2`: `Math.round(v × 100) / 100`, with `Math.round(x)` as `floor(x + 0.5)` on reals |
| Rounding.Round2Bounds | src/main/java/com/energy_app/service/EnergyServiceImpl.java:127-129 | `round2(v)` has at most two decimals and lies in (v − 0.005, v + 0.005] |
| Rounding.Round2Monotone | src/main/java/com/energy_app/service/EnergyServiceImpl.java:127-129 | rounding preserves order |
| Rounding.Round2Exact | src/main/java/com/energy_app/service/EnergyServiceImpl.java:127-129 | a value with at most two decimals is unchanged |
| Rounding.Round2Idempotent | src/main/java/com/energy_app/service/EnergyServiceImpl.java:127-129 | rounding twice is rounding once |
| Rounding.Round2Examples | src/main/java/com/energy_app/service/EnergyServiceImpl.java:127-129 | 100/3 rounds to 33.33 and 33.335 rounds up to 33.34 |
| Time.OffsetDateTime.WithMinute | src/main/java/com/energy_app/service/EnergyServiceImpl.java:139-141 | `withMinute`: sets the minute and keeps everything else |
| Time.OffsetDateTime.WithSecond | src/main/java/com/energy_app/service/EnergyServiceImpl.java:139-141 | `withSecond`: sets the second and keeps everything else |
| Time.OffsetDateTime.WithNano | src/main/java/com/energy_app/service/EnergyServiceImpl.java:139-141 | `withNano`: sets the nanosecond and keeps everything else |
| Time.OffsetDateTime.PlusMinutes | src/main/java/com/energy_app/service/EnergyServiceImpl.java:144 | adding minutes moves the instant by that many minutes, carries into hour and day, keeps seconds, nanoseconds and offset, and gives minute (m + k) mod 60 |
| Time.OffsetDateTime.PlusHours | src/main/java/com/energy_app/service/EnergyServiceImpl.java:141 | adding hours moves the instant by that many hours and keeps the offset |
| Time.AtStartOfDay | src/main/java/com/energy_app/service/EnergyServiceImpl.java:42-43 | midnight of a date lies at the start of that date |
| Time.MinuteOfHour | src/main/java/com/energy_app/service/EnergyServiceImpl.java:144 | whole hours do not change the minute of the hour |
| Time.ShiftByHours | src/main/java/com/energy_app/service/EnergyServiceImpl.java:144 | proof helper: adding whole hours to a minute count keeps the minute of the hour |
| Time.EpochNanoInjective | src/main/java/com/energy_app/service/EnergyServiceImpl.java:134-145 | a valid date-time is determined by its instant |
| Time.OnHalfHourMultiple | src/main/java/com/energy_app/service/EnergyServiceImpl.java:134-145 | a slot boundary is a whole number of half hours from midnight |
| Time.OneBoundaryPerSpan | src/main/java/com/energy_app/service/EnergyServiceImpl.java:134-145 | proof helper: a half-open half-hour span holds at most one multiple of a half hour |
| Time.BoundaryUnique | src/main/java/com/energy_app/service/EnergyServiceImpl.java:134-145 | two slot boundaries of one offset in the same half-hour span are equal |
| Time.QuotientUnique | src/main/java/com/energy_app/service/EnergyServiceImpl.java:134-145 | proof helper: a quotient and remainder with remainder below the divisor are unique |
| Time.MinuteGap | src/main/java/com/energy_app/service/EnergyServiceImpl.java:134-145 | proof helper: a whole-minute date-time between `lo` and `hi` minutes ahead on the minute scale is more than `lo − 1` and at most `hi` minutes ahead |
| Windows.CleanShare | src/main/java/com/energy_app/service/EnergyServiceImpl.java:173-178 | the sum of the percentages of the mix's clean entries |
| Windows.IntervalCleanShare | src/main/java/com/energy_app/service/EnergyServiceImpl.java:173-178 | an interval's clean share is that of its generation mix |
| Windows.CleanSharePartition | src/main/java/com/energy_app/service/EnergyServiceImpl.java:173-178 | clean share plus non-clean share is the interval's total |
| Windows.CleanShareIgnoresNonClean | src/main/java/com/energy_app/service/EnergyServiceImpl.java:173-178 | a non-clean entry anywhere in the mix contributes nothing |
| Windows.AllCleanShare | src/main/java/com/energy_app/service/EnergyServiceImpl.java:173-178 | when every entry is clean, the clean share is the total |
| Windows.CleanShareBounds | src/main/java/com/energy_app/service/EnergyServiceImpl.java:173-178 | with non-negative entries, the clean share is between 0 and the total |
| Windows.NonCleanNonNegative | src/main/java/com/energy_app/service/EnergyServiceImpl.java:173-178 | with non-negative entries, both shares are non-negative |
| Windows.WindowSum | src/main/java/com/energy_app/service/EnergyServiceImpl.java:152-155 | the inner loop's total: the clean shares of the `w` intervals from index `i` |
| Windows.WindowDto | src/main/java/com/energy_app/service/EnergyServiceImpl.java:167-170 | the reported start is the first interval's `from` and the end is the last interval's `to`, `windowSize − 1` further on |
| Windows.FirstArgmaxUnique | src/main/java/com/energy_app/service/EnergyServiceImpl.java:151-161 | at most one start index is the first maximum |
| Windows.ScanWindows | src/main/java/com/energy_app/service/EnergyServiceImpl.java:147-161 | the nested loop ends at -1 with -1.0 exactly when no window sum exceeds -1.0; otherwise at the first start with the largest window sum, holding that sum |
| Windows.NonNegativeBeatsInitial | src/main/java/com/energy_app/service/EnergyServiceImpl.java:148-165 | with non-negative percentages and a window that fits, some window beats -1.0 |
| Windows.WindowSumNonNegative | src/main/java/com/energy_app/service/EnergyServiceImpl.java:151-155 | with non-negative percentages, every window sum is non-negative |
| DailyMix.FromToday | src/main/java/com/energy_app/service/EnergyServiceImpl.java:83-90 | the filter keeps exactly the intervals that start today or later |
| DailyMix.OnDate | src/main/java/com/energy_app/service/EnergyServiceImpl.java:91 | `groupingBy` the start date: the intervals of one date, in input order |
| DailyMix.OnDateMembers | src/main/java/com/energy_app/service/EnergyServiceImpl.java:91 | a group holds exactly the intervals that start on its date, each as many times as it occurs in the data |
| DailyMix.InsertDate | src/main/java/com/energy_app/service/EnergyServiceImpl.java:95-96 | inserting into ascending distinct dates keeps them ascending and adds exactly the new date |
| DailyMix.SortedDates | src/main/java/com/energy_app/service/EnergyServiceImpl.java:91-96 | the group keys, strictly ascending: exactly the start dates that occur |
| DailyMix.Entries | src/main/java/com/energy_app/service/EnergyServiceImpl.java:106 | the `flatMap`: a day's mixes concatenated in order |
| DailyMix.PercentagesOf | src/main/java/com/energy_app/service/EnergyServiceImpl.java:107-110 | the percentages that one fuel type reports among the entries, in order |
| DailyMix.Present | src/main/java/com/energy_app/service/EnergyServiceImpl.java:106-110 | the fuel types present are exactly those with at least one percentage |
| DailyMix.Sum | src/main/java/com/energy_app/service/EnergyServiceImpl.java:109 | the sum of the values a fuel type reports in a day |
| DailyMix.Mean | src/main/java/com/energy_app/service/EnergyServiceImpl.java:109 | `averagingDouble`: the sum divided by the count |
| DailyMix.SumBounds | src/main/java/com/energy_app/service/EnergyServiceImpl.java:109 | values between `lo` and `hi` sum to between `n·lo` and `n·hi` |
| DailyMix.MeanBounds | src/main/java/com/energy_app/service/EnergyServiceImpl.java:109 | the mean of values between `lo` and `hi` lies between them |
| DailyMix.PercentagesFromEntries | src/main/java/com/energy_app/service/EnergyServiceImpl.java:106-109 | the percentages collected for a fuel type are within the bounds of the day's entries |
| DailyMix.EntriesBounds | src/main/java/com/energy_app/service/EnergyServiceImpl.java:106 | flattening the day's mixes keeps every percentage within its bounds |
| DailyMix.AverageByFuel | src/main/java/com/energy_app/service/EnergyServiceImpl.java:101-112 | a day's map has a key for exactly the fuel types that occur that day, each mapped to the mean of all its percentages over the day's entries |
| DailyMix.AverageByFuelBounds | src/main/java/com/energy_app/service/EnergyServiceImpl.java:101-112 | when every percentage of a day lies in [lo, hi] (0 to 100 for a well-formed feed), every fuel type's average for that day does too |
| DailyMix.MeansBounds | src/main/java/com/energy_app/service/EnergyServiceImpl.java:107-110 | a map of means over bounded entries is bounded |
| DailyMix.MapEntries | src/main/java/com/energy_app/service/EnergyServiceImpl.java:115 | the entry list holds exactly the map's pairs, one per fuel type |
| DailyMix.InsertByAverage | src/main/java/com/energy_app/service/EnergyServiceImpl.java:116 | insertion adds exactly one element, as a multiset |
| DailyMix.SortDescending | src/main/java/com/energy_app/service/EnergyServiceImpl.java:116 | sorting permutes its input |
| DailyMix.InsertByAverageSorted | src/main/java/com/energy_app/service/EnergyServiceImpl.java:116 | insertion keeps a list non-increasing by average |
| DailyMix.PrependLargest | src/main/java/com/energy_app/service/EnergyServiceImpl.java:116 | proof helper: an entry at least as large as every entry of a non-increasing list can go in front |
| DailyMix.InsertByAverageDistinct | src/main/java/com/energy_app/service/EnergyServiceImpl.java:116 | inserting a new fuel type keeps fuel types distinct |
| DailyMix.SortDescendingFacts | src/main/java/com/energy_app/service/EnergyServiceImpl.java:116 | the sorted list is non-increasing by average and keeps fuel types distinct |
| DailyMix.InsertByAverageStable | src/main/java/com/energy_app/service/EnergyServiceImpl.java:116 | insertion passes only larger averages: among the entries of any one average, the inserted entry comes first |
| DailyMix.SortDescendingStable | src/main/java/com/energy_app/service/EnergyServiceImpl.java:116 | the sort is stable: for every average, the entries with that average come out in their input order |
| DailyMix.Metrics | src/main/java/com/energy_app/service/EnergyServiceImpl.java:115-118 | the metrics pipeline: entries sorted by average, largest first, each rounded |
| DailyMix.Rounded | src/main/java/com/energy_app/service/EnergyServiceImpl.java:117 | every entry becomes its fuel type with the average rounded to two decimals, in the same order |
| DailyMix.MetricsSorted | src/main/java/com/energy_app/service/EnergyServiceImpl.java:114-118 | a day's metrics are non-increasing by percentage |
| DailyMix.MetricsCoverKeys | src/main/java/com/energy_app/service/EnergyServiceImpl.java:114-118 | the metrics name every fuel type of the day exactly once |
| DailyMix.MetricsValues | src/main/java/com/energy_app/service/EnergyServiceImpl.java:114-118 | each metric is a fuel type of the day with its average rounded |
| DailyMix.CleanSum | src/main/java/com/energy_app/service/EnergyServiceImpl.java:120-122 | the clean sum is the sum of the averages of BIOMASS, NUCLEAR, HYDRO, WIND and SOLAR, an absent fuel counting as 0; `GetOrZero` is `getOrDefault(ft, 0.0)` and `SumOver` the stream sum over CLEAN |
| DailyMix.SumOverCleanOrder | src/main/java/com/energy_app/service/EnergyServiceImpl.java:120-122 | summing in CLEAN's iteration order adds the five clean averages |
| DailyMix.ToDailyMixDto | src/main/java/com/energy_app/service/EnergyServiceImpl.java:114-125 | a summary carries the date it was made for |
| DailyMix.Days | src/main/java/com/energy_app/service/EnergyServiceImpl.java:80-96 | the output dates are strictly ascending and are exactly the start dates from today on |
| DailyMix.DaySummary | src/main/java/com/energy_app/service/EnergyServiceImpl.java:97 | a day's summary carries that day's date |
| DailyMix.Summaries | src/main/java/com/energy_app/service/EnergyServiceImpl.java:95-98 | one summary per date, in the order of the dates, each carrying its date |
| DailyMix.DatedInOrder | src/main/java/com/energy_app/service/EnergyServiceImpl.java:95-98 | results listed in the order of the ascending distinct start dates from today on are ascending by date and cover every such date |
| DailyMix.CalculateAveragesAndPercentage | src/main/java/com/energy_app/service/EnergyServiceImpl.java:80-99 | dates are strictly ascending; exactly the dates from today on with some interval appear; each day is the summary of that day's kept intervals |
| DailyMix.OnDateFromToday | src/main/java/com/energy_app/service/EnergyServiceImpl.java:83-91 | for a date from today on, the filter removes none of that date's intervals |
| DailyMix.DaySummaryFromToday | src/main/java/com/energy_app/service/EnergyServiceImpl.java:83-97 | a day's summary after the filter is the summary of all that day's intervals |
| DailyMix.OnDateWhole | src/main/java/com/energy_app/service/EnergyServiceImpl.java:91 | intervals that all start on one date form that date's whole group |
| DailyMix.SingleDay | src/main/java/com/energy_app/service/EnergyServiceImpl.java:80-99 | intervals all starting today give exactly one summary, today's |
| DailyMix.EarlierDate | src/main/java/com/energy_app/service/EnergyServiceImpl.java:91-96 | proof helper: in strictly ascending dates the first precedes the second |
| DailyMix.SingleDaySummary | src/main/java/com/energy_app/service/EnergyServiceImpl.java:80-99 | ascending distinct dates that all equal today, covering today, are a single entry |
| DailyMix.WindGasDay | src/test/java/com/energy_app/service/EnergyServiceImplTest.java:45-64 | WIND 60/GAS 40 and WIND 80/GAS 20 today give one day: WIND 70, then GAS 30, clean share 70.0 |
| DailyMix.WindGasDaySummary | src/test/java/com/energy_app/service/EnergyServiceImplTest.java:45-64 | that day's summary is WIND 70, GAS 30, clean share 70.0 |
| DailyMix.WindGasAverages | src/test/java/com/energy_app/service/EnergyServiceImplTest.java:45-64 | the day's averages are WIND 70 and GAS 30 |
| DailyMix.AveragesOfWindGas | src/main/java/com/energy_app/service/EnergyServiceImpl.java:101-112 | a map with the promised keys and means for WIND 60, 80 and GAS 40, 20 is {WIND: 70, GAS: 30} |
| DailyMix.WindGasMeans | src/main/java/com/energy_app/service/EnergyServiceImpl.java:109 | the mean of 60 and 80 is 70 and of 40 and 20 is 30 |
| DailyMix.WindGasEntriesOf | src/main/java/com/energy_app/service/EnergyServiceImpl.java:106 | a day's entries are its intervals' mixes concatenated in order |
| DailyMix.WindGasPercentages | src/test/java/com/energy_app/service/EnergyServiceImplTest.java:45-64 | WIND's percentages are 60, 80 and GAS's are 40, 20 |
| DailyMix.WindGasPresent | src/test/java/com/energy_app/service/EnergyServiceImplTest.java:45-64 | the fuel types present are WIND and GAS |
| DailyMix.WindGasKeys | src/main/java/com/energy_app/service/EnergyServiceImpl.java:115 | the test day's key set {WIND, GAS} is listed as GAS, WIND in the declaration-order stand-in for `HashMap` order |
| DailyMix.WindGasEntries | src/test/java/com/energy_app/service/EnergyServiceImplTest.java:45-64 | the averages' entries are GAS 30, WIND 70 |
| DailyMix.WindGasSorted | src/test/java/com/energy_app/service/EnergyServiceImplTest.java:45-64 | sorted largest first they are WIND 70, GAS 30 |
| DailyMix.WindGasRounded | src/test/java/com/energy_app/service/EnergyServiceImplTest.java:45-64 | rounding leaves 70 and 30 unchanged |
| DailyMix.WindGasMetrics | src/test/java/com/energy_app/service/EnergyServiceImplTest.java:45-64 | the metrics are WIND 70.0, then GAS 30.0 |
| DailyMix.WindGasSummary | src/test/java/com/energy_app/service/EnergyServiceImplTest.java:45-64 | the summary of those averages has clean share 70.0 |
| DailyMix.WindGasCleanSum | src/main/java/com/energy_app/service/EnergyServiceImpl.java:120-122 | WIND 70 and GAS 30 have clean sum 70 |
| EnergyServiceImpl.Wrap32 | src/main/java/com/energy_app/service/EnergyServiceImpl.java:62 | Java `int` arithmetic wraps modulo 2^32 and leaves in-range values alone |
| EnergyServiceImpl.GetCarbonIntensityResponse | src/main/java/com/energy_app/service/EnergyServiceImpl.java:70-78 | a null response or null data list raises ExternalApiException("Received empty data from Carbon Intensity API."); otherwise the response is passed on |
| EnergyServiceImpl.GenerationMixRange | src/main/java/com/energy_app/service/EnergyServiceImpl.java:40-43 | the range runs from 00:00 of today (hour, minute, second and nanosecond 0) to the midnight `generationMixDays` later |
| EnergyServiceImpl.GetGenerationMix | src/main/java/com/energy_app/service/EnergyServiceImpl.java:40-47 | the error exactly for a missing answer; otherwise the daily summaries of the returned intervals |
| EnergyServiceImpl.SnapToNextHalfHour | src/main/java/com/energy_app/service/EnergyServiceImpl.java:134-145 | the result is a slot boundary (minute 0 or 30, no seconds) of the same offset, more than 30 and at most 60 minutes after the input, across hour and day ends |
| EnergyServiceImpl.SnapWithinHour | src/main/java/com/energy_app/service/EnergyServiceImpl.java:138-139 | with minute below 30, hh:30 plus 30 minutes is a slot boundary more than 30 and at most 60 minutes ahead |
| EnergyServiceImpl.SnapNextHour | src/main/java/com/energy_app/service/EnergyServiceImpl.java:140-141 | with minute 30 or above, the next hour's hh:00 plus 30 minutes is a slot boundary more than 30 and at most 60 minutes ahead |
| EnergyServiceImpl.SnapUnique | src/main/java/com/energy_app/service/EnergyServiceImpl.java:134-145 | it is the only slot boundary that far ahead |
| EnergyServiceImpl.SnapExamples | src/main/java/com/energy_app/service/EnergyServiceImpl.java:134-145 | 10:15 → 11:00, 10:45 → 11:30, 23:45 → 00:30 of the next day |
| EnergyServiceImpl.SearchRange | src/main/java/com/energy_app/service/EnergyServiceImpl.java:50-57 | the search runs from the snapped instant to `searchWindowHours` later |
| EnergyServiceImpl.WindowSize | src/main/java/com/energy_app/service/EnergyServiceImpl.java:61-62 | two intervals per hour, in Java `int` |
| EnergyServiceImpl.ScanEmptyWindows | src/main/java/com/energy_app/service/EnergyServiceImpl.java:148-161 | the scan with a window size of 0 or less, in Java `int`: no start is chosen exactly when the bound `size − windowSize` overflows to a negative number; otherwise start 0 is chosen with sum 0 |
| EnergyServiceImpl.EmptyWindowBound | src/main/java/com/energy_app/service/EnergyServiceImpl.java:151 | that bound is negative exactly when `size − windowSize` exceeds `2^31 − 1` |
| EnergyServiceImpl.CalculateOptimalWindow | src/main/java/com/energy_app/service/EnergyServiceImpl.java:147-171 | success exactly when some window sum exceeds -1.0, and then the first window with the largest sum, from its first `from` to its last `to` with the rounded mean; otherwise IllegalArgumentException("Could not find optimal charging window."). A window size of 0 or less never succeeds: that error when the loop bound overflows, otherwise IndexOutOfBoundsException from the two `get` calls |
| EnergyServiceImpl.FindOptimalChargingWindow | src/main/java/com/energy_app/service/EnergyServiceImpl.java:49-68 | a missing answer raises ExternalApiException; fewer intervals than `2 × hours` raises IllegalArgumentException("Not enough data from api."); otherwise the result of the window search, including its failures for a window size of 0 or less |
| EnergyServiceImpl.NonNegativeWindowFound | src/main/java/com/energy_app/service/EnergyServiceImpl.java:148-165 | with non-negative percentages and enough intervals, the "could not find" error is unreachable |
| EnergyServiceImpl.OneHourScenario | src/test/java/com/energy_app/service/EnergyServiceImplTest.java:68-97 | for the test's three intervals and one hour, the result is (i0.from, i1.to, 85.0) |
| EnergyServiceImpl.ScenarioSums | src/test/java/com/energy_app/service/EnergyServiceImplTest.java:68-97 | the test's two windows sum to 170 and 100 |
| EnergyServiceImpl.TwoEntryShare | src/main/java/com/energy_app/service/EnergyServiceImpl.java:173-178 | a WIND-and-GAS interval's clean share is its WIND percentage |
| EnergyServiceLegacy.SameCleanSet | src/main/java/com/energy_app/service/EnergyService.java:30-36 | this revision's CLEAN field has the same five members as the shared constant |
| EnergyServiceLegacy.CleanShare | src/main/java/com/energy_app/service/EnergyService.java:169-174 | this revision's clean share, summed over its own `CLEAN` field |
| EnergyServiceLegacy.CleanShareAgrees | src/main/java/com/energy_app/service/EnergyService.java:169-174 | its clean share equals the shared clean share on every mix |
| EnergyServiceLegacy.ThreeDayRange | src/main/java/com/energy_app/service/EnergyService.java:44-47 | the range runs from 00:00 of today (hour, minute, second and nanosecond 0) to 00:00 three days later |
| EnergyServiceLegacy.GetGenerationMixForThreeDays | src/main/java/com/energy_app/service/EnergyService.java:44-51 | a null answer or null data list raises NullPointerException; otherwise the daily summaries, as in the current revision |
| EnergyServiceLegacy.SnapToNextHalfHour | src/main/java/com/energy_app/service/EnergyService.java:133-144 | the result is a slot boundary of the same offset, after the input and at most 30 minutes later |
| EnergyServiceLegacy.SnapUnique | src/main/java/com/energy_app/service/EnergyService.java:133-144 | it is the only slot boundary in that span |
| EnergyServiceLegacy.SnapExamples | src/main/java/com/energy_app/service/EnergyService.java:133-144 | 10:15 → 10:30, 10:45 → 11:00, 10:00 → 10:30, 23:45 → 00:00 of the next day |
| EnergyServiceLegacy.SearchRange | src/main/java/com/energy_app/service/EnergyService.java:58-59 | the search runs from the snapped instant to 48 hours later |
| EnergyServiceLegacy.CalculateBestWindow | src/main/java/com/energy_app/service/EnergyService.java:146-167 | the same first-maximum window and result as the current revision; when no window beats -1.0, `get(-1)` raises IndexOutOfBoundsException |
| EnergyServiceLegacy.FindOptimalChargingWindow | src/main/java/com/energy_app/service/EnergyService.java:53-70 | hours outside 1..6 raise IllegalArgumentException("Wrong number of hours") whatever the answer; then a null answer raises NullPointerException; then fewer than `2 × hours` intervals raise IllegalArgumentException("Not enough data from api"); otherwise the window search |
| EnergyServiceLegacy.NonNegativeNoIndexError | src/main/java/com/energy_app/service/EnergyService.java:147-162 | with non-negative percentages and enough intervals, the `get(-1)` is never reached |

## Left out

- HTTP, caching and wiring are not modelled. This covers the REST client, `@Cacheable`, the
  Spring configuration, the controller and the exception-to-status mapping. The client's
  answer is the parameter `fetched`.
- The clock is not read. `today` and `now` are parameters. The current revision's filter
  reads `LocalDate.now()` once per interval; the model uses one `today` for all of them, so
  a run that crosses midnight is not captured.
- Timestamp parsing and printing are not modelled. An interval's `from` and `to` keep their
  text together with the date that `OffsetDateTime.parse(...).toLocalDate()` extracts. The
  fetch ranges are given as date-time values, not as their `toString()` text.
- IEEE-754 doubles are not modelled. Percentages are exact reals. `Math.round(x)` is
  `floor(x + 0.5)`, so binary rounding, NaN, infinities and the saturation of `Math.round`
  at the `long` range are not captured.
- DailyMix.MapEntries: the order of equal averages in the metrics comes from `HashMap`
  iteration, which is unspecified. The model lists the entries in declaration order, and its
  sort is stable like `sorted` (`SortDescendingStable`), so equal averages come out in
  declaration order. The general contracts state only the non-increasing order, the distinct
  fuel types and the cover of the map.
- Null fields inside records are not modelled: a null percentage, a null mix list, a null
  `from` text or a null `fuelType`. A null `fuelType` would make `groupingBy(Fuel::fuelType)`
  throw NullPointerException, while `CLEAN.contains(null)` is simply false.
- EnergyServiceImpl.FindOptimalChargingWindow: one input is excluded by a precondition.
  With a window size of 0 or less and `size − windowSize = 2^31 − 1`, the Java loop counter
  wraps around and the loop never terminates. Lists longer than `2^31 − 1` are also
  excluded.
- EnergyServiceImpl.CalculateOptimalWindow: see the line above. It has the same precondition.
- EnergyServiceLegacy.GetGenerationMixForThreeDays: the earlier revision's copy of the
  aggregation helpers is not written out twice. It differs from the current copy only in the
  clean set it reads, and `SameCleanSet` shows that this set is the shared one.
- The test at src/test/java/com/energy_app/service/EnergyServiceImplTest.java:96 expects
  `(i0.from, i0.to, 80.0)`. The code uses a window of 2 intervals for one hour, so it returns
  `(i0.from, i1.to, 85.0)` (`OneHourScenario`). The model follows the code.
- The two revisions snap differently, and each is modelled as its code reads. The current
  revision goes to hh:30 below minute 30 and to the next hh:00 otherwise, then adds 30
  minutes (10:15 → 11:00, 10:45 → 11:30). The earlier revision goes to hh:00 below minute 30
  and to hh:30 otherwise, then adds 30 minutes (10:15 → 10:30, 10:45 → 11:00).
- EnergyServiceLegacy.Clean: the earlier revision's `CLEAN` is a mutable, non-final field of
  the class. It is modelled as a constant because nothing in the service writes to it.
- `FuelDto` and `OptimalWindowDto` are declared with the fields the service passes when it
  builds them (src/main/java/com/energy_app/service/EnergyServiceImpl.java:117 and :170).
  Nothing else about the two records is modelled.
