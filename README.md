# windash period aggregation, modelled in Dafny

windash is a dashboard for one wind turbine. It runs on an edge platform and
fronts an upstream performance API that serves daily records. This project
models its period-aggregation core, all of which lives in `main.go`:

- `getMonthlyData`: one month's energy yield in MWh. Past and future months
  are cached in the key-value store under `monthly-YYYYMM`. The current
  month is always fetched and never stored.
- `getYearlyData`: a year's yield, the sum of its twelve months, cached under
  `yearly-YYYY` unless it is the current year.
- `getYearToDateTotal` and `getYearToDateTotalForYear`: months 1..k of a
  year summed in order. The index page uses them for the year-to-date figure
  and its year-over-year (YoY) change.
- `getLast12Months`: the trailing twelve months as a JSON series of labels,
  yields, current-month flags, capacity factors and YoY changes.
- `getYearsSince2020`: the years from 2022 to the current one as a JSON
  series. Yields are in GWh.
- `last30` and `getYear`: raw upstream bodies cached under a day key
  (`YYMMDD`, with eviction of the day that left the window) and under a bare
  year key (`YYYY`).

The model has two layers:

- A functional layer: `CacheModel` and `SeriesModel`. It threads a `World`
  through every call. The world is the store plus a log of every lookup,
  upstream query, insert and delete.
- An imperative layer: the class `Windash.Dashboard`. Its `store` and `log`
  fields are updated in place by methods with the source's loops.

The store's failures are part of the environment `Env`: whether the store
opens, the keys whose insert it refuses, the keys whose lookup fails and the
keys whose delete fails. As in the code, a failed lookup is a miss (the value
is refetched and the entry overwritten) and a failed delete is ignored.

Every method is proved to yield exactly the result and the new world that
its specification function gives. Everything proved about those functions
(in `CacheProperties`, `SeriesProperties` and `Json`) therefore holds of the
methods. Modules:

- `Calendar`: Gregorian dates, Unix time, month and year windows, and hours.
- `Keys`: the four key families, their decoders and round trips.
- `Payload`: bodies and the two readings made of them.
- `Rollup`: capacity factor and YoY change.
- `Json`: the comma-joined arrays of the two responses.

## Model

| member | source | states |
|---|---|---|
| Keys.Padded | main.go:434 | `%0Nd`: only decimal digits, at least N characters |
| Keys.PaddedRoundTrip | main.go:434 | reading a zero-padded number back gives the number |
| Keys.PaddedLength | main.go:434 | a number below 10^N pads to exactly N characters |
| Keys.MonthlyKey | main.go:434 | `monthly-YYYYMM` starts with the `monthly-` prefix; its round trip and injectivity are `MonthlyKeyRoundTrip` and `MonthlyKeyInjective` |
| Keys.YearlyKey | main.go:614 | `yearly-YYYY` starts with the `yearly-` prefix; see `YearlyKeyRoundTrip` and `YearlyKeyInjective` |
| Keys.YearKey | main.go:382 | the raw-year key is digits only; see `YearKeyRoundTrip` and `YearKeyInjective` |
| Keys.ParseDigitsOfDigits | main.go:681 | the `%d` year label reads back as the year |
| Keys.MonthlyKeyRoundTrip | main.go:434 | `monthly-YYYYMM` decodes back to (year, month) |
| Keys.MonthlyKeyInjective | main.go:434 | two months share a month key exactly when they are the same month |
| Keys.YearlyKeyRoundTrip | main.go:614 | `yearly-YYYY` decodes back to the year |
| Keys.YearlyKeyInjective | main.go:614 | distinct years have distinct year keys |
| Keys.YearKeyRoundTrip | main.go:382 | the raw-year key `YYYY` decodes back to the year |
| Keys.YearKeyInjective | main.go:382 | distinct years have distinct raw-year keys |
| Keys.DayKey | main.go:331 | the day key is six digits |
| Keys.DayKeyRoundTrip | main.go:331 | the day key decodes to (year mod 100, month, day) |
| Keys.DayKeyCollisions | main.go:331 | two dates share a day key exactly when month, day and year mod 100 agree |
| Keys.DayKeyInjectiveWithinCentury | main.go:331 | within one century the day key identifies the date |
| Keys.DayKeyCenturyCollision | main.go:331 | the same day 100 years apart has the same day key |
| Keys.DayKeyDistinctNearby | main.go:366-369 | the key inserted and the key deleted by last30 (30 days apart) differ |
| Keys.KeyFamiliesDisjoint | main.go:434 | month, year, raw-year and day keys never collide, whatever the years of each (a raw-year key below year 10000) |
| Calendar.DaysInMonth | main.go:449-450 | 28 to 31 days; February has 29 exactly in leap years |
| Calendar.DaysInYear | main.go:672-674 | 365 or 366 days, 366 exactly in leap years |
| Calendar.FirstOfNextMonth | main.go:450 | `AddDate(0, 1, 0)` from day 1 lands on day 1 of the next month |
| Calendar.MonthWindow | main.go:449-450 | the month's first and last second; proved by `MonthWindowEndsBeforeNextMonth` and `MonthWindowSpan` |
| Calendar.YearWindow | main.go:379-380 | Jan 1 00:00:00 to Dec 31 23:59:59; proved by `YearWindowSpan` |
| Calendar.MonthHours | main.go:542-543 | hours from the month's start to the next month's; proved by `MonthHoursReachNextMonth` and `MonthHoursIsCalendarLength` |
| Calendar.YearHours | main.go:672-674 | hours from Jan 1 to the next Jan 1; proved by `YearHoursReachNextYear` and `YearHoursIsCalendarLength` |
| Calendar.MonthWindowEndsBeforeNextMonth | main.go:449-450 | the month window ends one second before the next month starts |
| Calendar.MonthWindowSpan | main.go:449-450 | the window runs from day 1 00:00:00 to the last day 23:59:59, i.e. exactly the month's days |
| Calendar.YearWindowSpan | main.go:379-380 | the getYear window covers exactly the days of the year |
| Calendar.MonthHoursReachNextMonth | main.go:542-543 | month hours are the duration from day 1 to day 1 of the next month |
| Calendar.MonthHoursIsCalendarLength | main.go:542-543 | month hours are 24 times the month's days, so 672 to 744 |
| Calendar.YearHoursReachNextYear | main.go:672-674 | year hours are the duration from Jan 1 to Jan 1 of the next year |
| Calendar.YearHoursIsCalendarLength | main.go:672-674 | year hours are 8784 in a leap year and 8760 otherwise |
| Calendar.DaysBack | main.go:327-330 | the date k days back is exactly k days earlier |
| Calendar.DaysBackUnixTime | main.go:327-330 | going back k days moves Unix time back k times 86400 seconds |
| Calendar.MonthIndexRoundTrip | main.go:511-512 | a (year, month) pair survives the running month index |
| Calendar.IndexMonthRoundTrip | main.go:521 | `AddDate(0, i, 0)` as arithmetic on the month index is exact |
| Payload.BodyYield | main.go:483-493 | a body fails exactly when it is not JSON; otherwise it gives the sum of its records, or 0 without a `data` array |
| Payload.FirstYield | main.go:439-444 | a stored body gives its first record's yield, or 0 without one, and fails only when it is not JSON |
| Payload.StoredTotal | main.go:500-501 | the stored aggregate reads back as the value stored |
| Payload.SumYieldNonNegative | main.go:489-493 | non-negative records sum to a non-negative total |
| Payload.SumYieldAppend | main.go:489-493 | the sum distributes over concatenation |
| Payload.SumYield | main.go:489-493 | the records' yields summed in order; the loop that computes it is `Windash.Dashboard.SumRecords`, and `SumYieldNonNegative` and `SumYieldAppend` state its properties |
| Payload.MonthlyPayload | main.go:500 | the body stored under a month key, with the period `YYYYMM`; it reads back as the stored total (`StoredTotal`) |
| Payload.YearlyPayload | main.go:640 | the body stored under a year key, with the period `YYYY`; it reads back as the stored total (`StoredTotal`) |
| Rollup.CapacityFactor | main.go:544-548 | yield over the nominal power times the hours, in percent, 0 without hours; proved by `CapacityFactorMeaning` and `CapacityFactorMonotone` |
| Rollup.YoYChange | main.go:531-536 | the change against a successful positive prior, else 0; proved by `YoYChangeMeaning` |
| Rollup.CapacityFactorMeaning | main.go:544-548 | the capacity factor times the theoretical maximum is 100 times the yield; it is 0 exactly for 0 yield and at most 100 exactly when the yield is at most the maximum |
| Rollup.CapacityFactorMonotone | main.go:544-548 | a larger yield never gives a smaller capacity factor |
| Rollup.YoYChangeMeaning | main.go:533-536 | the change is 0 without a positive prior; otherwise it has the sign of current minus prior and applying it to the prior gives the current value |
| Rollup.LeapYearCapacityExample | main.go:675-679 | 12000 MWh over 8784 hours at 2500 kW is a capacity factor between 54.64% and 54.65% |
| CacheModel.CachedMonth | main.go:436-502 | the month cache rule as a function of the world: lookup unless current, fetch on a miss, insert unless current; see `CachedMonthHit`, `CachedMonthMiss`, `CachedMonthFailedMiss` and `CachedMonthOnlyTouchesItsKey` |
| CacheModel.Monthly | main.go:424-505 | getMonthlyData: the cache rule at the month's key, period and window; see `MonthlyHitNoFetch`, `MonthlyMissFetchesThenInserts`, `MonthlyFailedMiss`, `MonthlyCurrentMonthLive`, `MonthlyRepeatIsCached` and `MonthlyOnlyTouchesItsKey` |
| CacheModel.MonthsTotal | main.go:630-636 | months 1..k summed in order, stopping at the first failure; see `MonthsTotalStopsAtFailure` and `MonthsTotalOfCachedMonths` |
| CacheModel.Yearly | main.go:604-645 | getYearlyData: a cached year, or the twelve-month total stored on success outside the current year; see `YearlyHitNoFetch` and `YearlyMissSumsMonths` |
| CacheModel.CachedRaw | main.go:331-370 | the raw-body cache rule: lookup, query, insert, optional eviction; see `CachedRawMiss`, `CachedRawMissEvicts` and `CachedRawFailedMiss` |
| CacheModel.Last30Window | main.go:326-330 | the 30 days before today; see `Last30WindowDays` |
| CacheModel.Last30 | main.go:321-371 | last30: the raw rule at yesterday's key evicting the day 31 days back; see `Last30HitNoFetch`, `Last30MissSlides`, `Last30FailedQuery` and `Last30InsertFailureIsBlankSuccess` |
| CacheModel.RawYear | main.go:373-422 | getYear: the raw rule at the bare year key with no eviction; see `RawYearCachesUnconditionally` and `RawYearFailedQuery` |
| CacheProperties.MonthlyCurrentMonthUncached | main.go:436-502 | for the current month the only effect is the upstream query; the month key is neither read nor written |
| CacheProperties.MonthlyCurrentMonthLive | main.go:449-497 | the current month's figure is the month window's records summed and divided by 1000, failing exactly when the query fails or the body is not JSON |
| CacheProperties.MonthlyHitNoFetch | main.go:436-446 | outside the current month a stored value whose lookup succeeds is returned as stored after a lookup alone |
| CacheProperties.CachedMonthHit | main.go:436-446 | a cache hit (stored, lookup succeeds) costs one lookup and returns the stored reading |
| CacheProperties.MonthlyMissFetchesThenInserts | main.go:438-502 | a miss, key absent or lookup failing, looks up, fetches the month window, returns the records' total / 1000 and inserts it under the month key, overwriting an unreadable entry |
| CacheProperties.CachedMonthMiss | main.go:438-502 | the same, for any key, period and window |
| CacheProperties.CachedMonthFailedMiss | main.go:473-487 | a miss fails exactly when the query fails or the body is not JSON; it returns that error, and after the lookup and the query nothing is inserted and the store is unchanged |
| CacheProperties.MonthlyFailedMiss | main.go:449-502 | outside the current month a failing fetch returns its error and caches nothing under the month key |
| CacheProperties.CachedMonthOnlyTouchesItsKey | main.go:424-505 | the month cache step leaves every other key unchanged and unmentioned |
| CacheProperties.MonthlyOnlyTouchesItsKey | main.go:424-505 | a month call leaves every other key alone |
| CacheProperties.MonthlyRepeatIsCached | main.go:436-502 | after a success outside the current month, with the key insertable and readable, a second call returns the same value with one lookup and no query |
| CacheProperties.FutureMonthFrozen | main.go:430-432 | a month asked for before it began is cached, and later calls keep returning that value |
| CacheProperties.April2024Example | main.go:434-502 | April 2024 with 75000 kWh of records gives 75 MWh stored under `monthly-202404` over a 30-day window |
| CacheProperties.MonthsTotalStopsAtFailure | main.go:630-636 | after the first failing month no later month is asked for |
| CacheProperties.MonthsTotalOnlyTouchesMonthKeys | main.go:630-636 | the month loop touches only its own month keys |
| CacheProperties.MonthsTotalOfCachedMonths | main.go:741-747 | over readable cached months of a year other than the current one (the prior-year total of the index page, and likewise the loop at main.go:630-636) the loop returns the sum of the stored values, changes no store entry and makes only the k lookups |
| CacheProperties.YearlyKeyIsNoMonthKey | main.go:614 | a year key is never a month key |
| CacheProperties.YearlyCurrentYearUncached | main.go:610-642 | for the current year the year key is neither read nor written |
| CacheProperties.YearlyCurrentYearSumsMonths | main.go:628-636 | the current year's figure and effects are exactly those of summing months 1..12 |
| CacheProperties.YearlyHitNoFetch | main.go:616-626 | outside the current year a stored value whose lookup succeeds is returned after a lookup alone |
| CacheProperties.YearlyMissSumsMonths | main.go:618-642 | a miss (absent or unreadable) is the sum of the twelve months; a success is stored under the year key, and after a failure the year key was neither inserted nor deleted and keeps its value |
| CacheProperties.Last30WindowDays | main.go:326-330 | the last30 window is the 30 whole days before today; its end is in yesterday's key day and the evicted key is the day before its start |
| CacheProperties.Last30HitNoFetch | main.go:331-333 | a hit on yesterday's key (stored, lookup succeeds) returns the stored body with no query |
| CacheProperties.CachedRawMiss | main.go:331-370 | an accepted miss (absent or unreadable) returns the body after a lookup, a query, an insert and the eviction; the evicted key is removed unless the store fails the delete, which is ignored |
| CacheProperties.CachedRawFailedMiss | main.go:358-365 | a raw miss fails exactly when the query fails; it returns the error after the lookup and query alone, with no insert, no eviction and the store unchanged |
| CacheProperties.Last30MissSlides | main.go:358-370 | a miss returns the body and stores it under yesterday's key; the key of the day that left the window is gone when the delete succeeds and left as it was when it fails |
| CacheProperties.Last30InsertFailureIsBlankSuccess | main.go:362-368 | a refused insert is reported as success with the empty text, and nothing is stored |
| CacheProperties.Last30FailedQuery | main.go:358-365 | a last30 miss whose query fails returns the error; yesterday's key is not inserted and no day is evicted |
| CacheProperties.RawYearCachesUnconditionally | main.go:379-421 | getYear caches any year, even the current one; a second call is served from the store with one lookup and no query, and when the store cannot read the key back it queries and inserts again |
| CacheProperties.RawYearFailedQuery | main.go:409-416 | a getYear miss whose query fails returns the error and caches nothing |
| SeriesModel.TrailingMonth | main.go:520-523 | step i visits the month 11 - i months before the current month |
| SeriesModel.Run | main.go:520-557 | the shared loop: steps run in order on the world the previous one left, collecting points, the first failure ending the run; see `RunShape`, `RunStopsAtFailure` and `RunAbortsAt` |
| SeriesModel.MonthPointOf | main.go:531-551 | a month point: `Jan 2006` label, yield, current flag, factor over the month's hours, YoY change; see `MonthPointFitsAt` |
| SeriesModel.MonthSeries | main.go:520-557 | the twelve-step loop of getLast12Months; see `MonthSeriesShape` and `MonthSeriesAbortsOnMonthFailure` |
| SeriesModel.YearCount | main.go:650-657 | the number of loop turns from 2022 to the current year, none before 2022; see `YearsSince2020Points` |
| SeriesModel.YearSeries | main.go:657-686 | the year loop of getYearsSince2020; see `YearSeriesShape`, `YearSeriesAbortsOnYearFailure` and `YearsSince2020Points` |
| SeriesModel.MonthLabel | main.go:550-551 | the `Jan 2006` label; its comma-freeness is `Json.MonthLabelCommaFree` |
| SeriesModel.MonthPointAt | main.go:524-556 | one twelve-month step: the month, its prior year, the flag, the factor; see `MonthPointAtMeaning` and `MonthPointFitsAt` |
| SeriesModel.YearPointOf | main.go:671-684 | a year point: `%d` label, GWh yield, factor over the year's hours, YoY change; see `YearPointFitsAt` |
| SeriesModel.YearPointAt | main.go:658-685 | one yearly step: the year and its prior year; see `YearPointAtMeaning` |
| SeriesModel.YearToDate | main.go:249-262 | the page's total and YoY change; see `YearToDateMeaning` |
| SeriesProperties.TrailingMonthsShape | main.go:510-539 | the visited months are consecutive, start the month after the same month a year ago and end at the current month, which only step 11 is |
| SeriesProperties.RunShape | main.go:520-557 | a successful run has one point per step, in order |
| SeriesProperties.RunStopsAtFailure | main.go:526-529 | after a failing step no later step runs |
| SeriesProperties.RunAbortsAt | main.go:526-529 | the first failing step ends the run with its failure |
| SeriesProperties.MonthPointFitsAt | main.go:539-551 | a point built for step i has that month's label, the current flag exactly at step 11, and the capacity factor over 24 times the month's days |
| SeriesProperties.MonthPointAtMeaning | main.go:526-536 | a step succeeds exactly when its month does, whatever the prior-year call returns |
| SeriesProperties.MonthStepFits | main.go:520-557 | a successful step's point fits its position |
| SeriesProperties.MonthSeriesShape | main.go:520-557 | a successful series has one fitting point per month |
| SeriesProperties.MonthSeriesAbortsOnMonthFailure | main.go:526-529 | the first failing month aborts the series with its failure |
| SeriesProperties.June2025Months | main.go:510-512 | in mid-June 2025 the series starts at July 2024 |
| SeriesProperties.June2025Labels | main.go:551 | July 2024 is labelled `Jul 2024`; the yearly series then has four points |
| SeriesProperties.YearPointFitsAt | main.go:671-684 | a year point is labelled with the year and its capacity factor is over 8784 or 8760 hours |
| SeriesProperties.YearPointAtMeaning | main.go:659-669 | a year succeeds exactly when its own call does, whatever the prior year returns |
| SeriesProperties.YearStepFits | main.go:657-686 | a successful year step's point fits its position |
| SeriesProperties.YearSeriesShape | main.go:657-686 | a successful series has one fitting point per year |
| SeriesProperties.YearSeriesAbortsOnYearFailure | main.go:659-662 | the first failing year aborts the series with its failure |
| SeriesProperties.YearsSince2020Points | main.go:650-681 | the series has a point for each year from 2022 to the current year, labelled in increasing order and ending at the current year |
| SeriesProperties.YearToDateMeaning | main.go:249-262 | the page fails exactly when this year's months do; the change is 0 when last year's months fail |
| Json.SplitJoin | main.go:561-566 | splitting the comma-joined comma-free items gives them back |
| Json.JoinSnoc | main.go:561-566 | joining one more item appends a comma and the item |
| Json.AppendJoined | main.go:561-566 | the separator loop appends exactly the comma-joined items |
| Json.Items | main.go:560-598 | one item per point, the i-th rendered from the i-th point |
| Json.ItemsReadBack | main.go:560-598 | comma-free items split back out of their comma-joined array |
| Json.BuildMonthSeriesJson | main.go:559-601 | the builder loops produce the twelve-month document with its five arrays in order |
| Json.BuildYearSeriesJson | main.go:688-719 | the builder loops produce the yearly document with its four arrays in order |
| Json.MonthSeriesJson | main.go:559-601 | the twelve-month document; its arrays read back by `Last12MonthsLabels`, `Last12MonthsFlags` and `Last12MonthsNumbers` |
| Json.YearSeriesJson | main.go:688-719 | the yearly document; its arrays read back by `YearsSince2020Labels` and `YearsSince2020Numbers` |
| Json.MonthLabelCommaFree | main.go:551 | a month label contains no comma |
| Json.Last12MonthsLabels | main.go:559-566 | a successful body lists twelve quoted labels of the visited months, which split back out |
| Json.YearsSince2020Labels | main.go:688-695 | a successful body lists the quoted years from 2022, which split back out |
| Json.Last12MonthsFlags | main.go:574-584 | the `isCurrentMonth` array of a successful body splits back into twelve flags, `true` exactly at the last (current) month |
| Json.Last12MonthsNumbers | main.go:567-598 | for a comma-free number format the yield, factor and change arrays split back into one item per month, each factor the month's yield over 24 times its days |
| Json.YearsSince2020Numbers | main.go:696-716 | for a comma-free number format the yearly arrays split back into one item per year from 2022, each factor the yield over 8784 or 8760 hours |
| Windash.Last12MonthsBody | main.go:507-602 | the twelve-month series rendered as JSON, or the first failure; `Windash.Dashboard.GetLast12Months` computes it, and the `Json` lemmas read its arrays back |
| Windash.YearsSince2020Body | main.go:647-720 | the yearly series from 2022 rendered as JSON, or the first failure; `Windash.Dashboard.GetYearsSince2020` computes it, and the `Json` lemmas read its arrays back |
| Windash.Dashboard.constructor | main.go:322 | the store starts as given and the log empty |
| Windash.Dashboard.Lookup | main.go:438 | logs the lookup and returns the stored body, or nothing when the key is absent or the lookup fails |
| Windash.Dashboard.Query | main.go:473 | logs the query and returns the upstream answer |
| Windash.Dashboard.Insert | main.go:501 | logs the insert and stores the body unless the store refuses the key |
| Windash.Dashboard.Delete | main.go:369 | logs the delete and removes the key unless the store fails the delete, reporting which |
| Windash.Dashboard.SumRecords | main.go:489-493 | the loop's total is the sum of the records' yields |
| Windash.Dashboard.FetchMonth | main.go:436-504 | result and new store and log are those of the month cache rule |
| Windash.Dashboard.GetMonthlyData | main.go:424-505 | result and new state are those of `Monthly`, so every month-cache property above holds |
| Windash.Dashboard.AddMonth | main.go:630-636 | one loop turn moves the state from months 1..m-1 to months 1..m |
| Windash.Dashboard.SumMonths | main.go:630-636 | the loop's result and new state are those of `MonthsTotal` |
| Windash.Dashboard.GetYearlyData | main.go:604-645 | result and new state are those of `Yearly` |
| Windash.Dashboard.GetYearToDateTotal | main.go:722-737 | the sum of months 1 up to the current month, with its effects |
| Windash.Dashboard.GetYearToDateTotalForYear | main.go:739-749 | the sum of months 1 up to the given month of the given year, with its effects |
| Windash.Dashboard.IndexYearToDate | main.go:249-262 | result and new state are those of `YearToDate` |
| Windash.Dashboard.FetchRaw | main.go:331-370 | result and new state are those of the raw-body cache rule |
| Windash.Dashboard.GetLast30 | main.go:321-371 | result and new state are those of `Last30` |
| Windash.Dashboard.GetYear | main.go:373-422 | result and new state are those of `RawYear` |
| Windash.Dashboard.MonthPointFor | main.go:520-557 | one loop turn yields the step-i point and state of `MonthPointAt` |
| Windash.Dashboard.GetLast12Months | main.go:507-602 | the body and new state are those of the twelve-step series rendered as JSON |
| Windash.Dashboard.YearPointFor | main.go:657-686 | one loop turn yields the point and state of `YearPointAt` |
| Windash.Dashboard.GetYearsSince2020 | main.go:647-720 | the body and new state are those of the series from 2022 rendered as JSON |

## Left out

- The HTTP handlers and routing: the index page beyond its year-to-date figures, the templates, the favicon and the history page. `getLatestPerf`, `getLatestMean` and `getKey` are not part of this model. They do no period aggregation.
- Request construction: URL building, headers and the edge cache's TTL. An upstream call is modelled as the window it queries and a response from `Env.upstream`, a parameter. That parameter also stands for transport and read errors.
- The clock and the time zone: "now" is the parameter `today`, a UTC date of 1970 or later, fixed for a whole request. The Go functions each read `time.Now()` again (main.go:259, 430, 508, 610, 648, 723), so a request that crosses midnight, and with it a month or year boundary, can see two different current months; that case is not modelled. Years before 1970 are not modelled.
- JSON text: bodies are the `Body` datatype. Parsing is reduced to its outcome (records, no `data` array, empty, not JSON). The `%f` formatting of the JSON series' numbers is the parameter `show`. The JSON read-back of the numeric arrays is proved for any number format that writes no comma; `%f` writes none.
- Payload.StoredTotal: stores the exact total, while main.go:500 and main.go:640 write it with `%f`, rounded to six decimals. A cache hit in Go therefore returns the rounded figure, and the "same value" of `CacheProperties.MonthlyRepeatIsCached`, `CacheProperties.FutureMonthFrozen`, `CacheProperties.MonthlyHitNoFetch` and `CacheProperties.YearlyHitNoFetch` holds up to that rounding.
- Floating point: yields, hours and percentages are exact reals. `float64` rounding is not modelled.
- Month windows and hours are computed as the first second of the month plus `DaysInMonth` (or `DaysInYear`) days. They are proved equal to the `AddDate` form the Go code uses (`Calendar.MonthWindowEndsBeforeNextMonth`, `Calendar.MonthHoursReachNextMonth`, `Calendar.YearHoursReachNextYear`).
- Windash.Dashboard.GetMonthlyData: requires the month to be 1..12. The Go function accepts any month, but every caller passes 1..12. Out-of-range months would be normalised by `time.Date`, which is not modelled.
- Windash.Dashboard.GetYearToDateTotalForYear: requires `upToMonth <= 12`, for the same reason. Its only caller passes the current month.
