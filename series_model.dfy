/** The two rollup series and the year-to-date figures, as functions over
    the CacheModel world: the trailing twelve months of getLast12Months,
    the years from 2022 of getYearsSince2020, and the year-to-date total
    with its year-over-year change from the index page. */
module SeriesModel {
  import opened Wrappers
  import opened Calendar
  import opened Keys
  import opened Payload
  import opened Rollup
  import opened CacheModel

  /** One point of the monthly series: the five parallel slices of
      getLast12Months, taken one index at a time. */
  datatype MonthPoint = MonthPoint(monthLabel: string, energyYield: real, isCurrent: bool,
                                   capacityFactor: real, yoyChange: real)

  /** One point of the yearly series; energyYield is in GWh. */
  datatype YearPoint = YearPoint(yearLabel: string, energyYield: real, capacityFactor: real, yoyChange: real)

  const MonthNames: seq<string> :=
    ["Jan", "Feb", "Mar", "Apr", "May", "Jun", "Jul", "Aug", "Sep", "Oct", "Nov", "Dec"]

  /** Go's layout "Jan 2006": the abbreviated month name and the four-digit year. */
  function MonthLabel(y: nat, m: int): string
    requires 1 <= m <= 12
  {
    MonthNames[m - 1] + " " + Padded(y, 4)
  }

  /** The loop shape shared by getLast12Months and getYearsSince2020: steps
      0, 1, ..., n - 1 run in order, each on the world the previous one left,
      their points collected in order; the first failing step ends the run
      with its failure. */
  function Run<P>(step: (World, nat) -> (Outcome<P>, World), w: World, n: nat): (Outcome<seq<P>>, World)
    decreases n, w
  {
    if n == 0 then (Ok([]), w)
    else
      var sofar := Run(step, w, n - 1);
      if sofar.0.Err? then sofar
      else
        var point := step(sofar.1, n - 1);
        if point.0.Err? then (Err(point.0.error), point.1) else (Ok(sofar.0.value + [point.0.value]), point.1)
  }

  // ---------------------------------------------------------------------
  // getLast12Months (main.go:507-602)

  /** The month visited at step i: day 1 of the current month moved back 11
      months and then forward i months. */
  function TrailingMonth(today: Date, i: nat): (ym: (nat, int))
    requires IsToday(today)
    ensures 1 <= ym.1 <= 12 && ym.0 >= 1
    ensures MonthIndex(ym.0, ym.1) == MonthIndex(today.year, today.month) - 11 + i
  {
    var index := MonthIndex(today.year, today.month) - 11 + i;
    IndexMonthRoundTrip(index);
    (YearOfIndex(index), MonthOfIndex(index))
  }

  /** The point of month (y, m) with yield v, given the outcome of the same
      month a year earlier. */
  function MonthPointOf(y: nat, m: int, today: Date, v: real, prior: Outcome<real>): MonthPoint
    requires 1 <= m <= 12
  {
    MonthPoint(MonthLabel(y, m), v, IsCurrentMonth(y, m, today), CapacityFactor(v, MonthHours(y, m)),
               YoYChange(v, prior))
  }

  /** Step i of the loop: the month's yield (a failure aborts), the same
      month a year earlier (a failure only zeroes the change), and the
      derived fields. */
  function MonthPointAt(env: Env, w: World, today: Date, i: nat): (Outcome<MonthPoint>, World)
    requires IsToday(today)
  {
    var month := TrailingMonth(today, i);
    var y := month.0;
    var m := month.1;
    var current := Monthly(env, w, y, m, today);
    if current.0.Err? then (Err(current.0.error), current.1)
    else
      var prior := Monthly(env, current.1, y - 1, m, today);
      (Ok(MonthPointOf(y, m, today, current.0.value, prior.0)), prior.1)
  }

  function MonthStep(env: Env, today: Date): (World, nat) -> (Outcome<MonthPoint>, World)
    requires IsToday(today)
  {
    (v: World, i: nat) => MonthPointAt(env, v, today, i)
  }

  /** Steps 0 .. n - 1 of the loop (the source runs twelve). */
  function MonthSeries(env: Env, w: World, today: Date, n: nat): (Outcome<seq<MonthPoint>>, World)
    requires IsToday(today)
  {
    Run(MonthStep(env, today), w, n)
  }

  // ---------------------------------------------------------------------
  // getYearsSince2020 (main.go:647-720)

  const FirstSeriesYear: nat := 2022

  /** Number of years from 2022 to the current year, none before 2022. */
  function YearCount(today: Date): nat {
    if today.year >= FirstSeriesYear then today.year - FirstSeriesYear + 1 else 0
  }

  /** The point of year y with yield v in MWh, given the outcome of the
      year before: the capacity factor on the MWh figure and the yield
      converted to GWh. */
  function YearPointOf(y: nat, v: real, prior: Outcome<real>): YearPoint {
    YearPoint(Digits(y), v / 1000.0, CapacityFactor(v, YearHours(y)), YoYChange(v, prior))
  }

  /** One year of the loop: the year's yield (a failure aborts) and the
      year before (a failure only zeroes the change). */
  function YearPointAt(env: Env, w: World, y: nat, today: Date): (Outcome<YearPoint>, World)
    requires y >= 1
  {
    var current := Yearly(env, w, y, today);
    if current.0.Err? then (Err(current.0.error), current.1)
    else
      var prior := Yearly(env, current.1, y - 1, today);
      (Ok(YearPointOf(y, current.0.value, prior.0)), prior.1)
  }

  function YearStep(env: Env, today: Date): (World, nat) -> (Outcome<YearPoint>, World) {
    (v: World, i: nat) => YearPointAt(env, v, FirstSeriesYear + i, today)
  }

  /** Years 2022 .. 2022 + n - 1. */
  function YearSeries(env: Env, w: World, today: Date, n: nat): (Outcome<seq<YearPoint>>, World) {
    Run(YearStep(env, today), w, n)
  }

  // ---------------------------------------------------------------------
  // The year-to-date figures of index (main.go:249-262)

  /** The year-to-date total (months 1 .. current month of the current
      year; a failure fails the page) and its change against the same
      months of the year before (a failure there only zeroes the change). */
  function YearToDate(env: Env, w: World, today: Date): (Outcome<(real, real)>, World)
    requires IsToday(today)
  {
    var total := MonthsTotal(env, w, today.year, today.month, today);
    if total.0.Err? then (Err(total.0.error), total.1)
    else
      var prior := MonthsTotal(env, total.1, today.year - 1, today.month, today);
      (Ok((total.0.value, YoYChange(total.0.value, prior.0))), prior.1)
  }
}
