/** The service's aggregators as the Go code runs them: one object holding
    the key-value store and the log of calls to the store and the upstream,
    whose methods update both in place, statement by statement, with the
    loops of the source. Each method is proved to do exactly what the
    corresponding function of CacheModel or SeriesModel says, so every
    property proved about those functions holds of the methods. */
module Windash {
  import opened Wrappers
  import opened Calendar
  import opened Keys
  import opened Payload
  import opened Rollup
  import opened CacheModel
  import opened SeriesModel
  import opened Json
  import opened CacheProperties
  import opened SeriesProperties

  /** The JSON series built by getLast12Months: the twelve months, or the first failure. */
  function Last12MonthsBody(env: Env, w: World, today: Date, show: real -> string): (Outcome<string>, World)
    requires IsToday(today)
  {
    var s := MonthSeries(env, w, today, 12);
    if s.0.Err? then (Err(s.0.error), s.1) else (Ok(MonthSeriesJson(s.0.value, show)), s.1)
  }

  /** The JSON series built by getYearsSince2020: the years from 2022, or the first failure. */
  function YearsSince2020Body(env: Env, w: World, today: Date, show: real -> string): (Outcome<string>, World) {
    var s := YearSeries(env, w, today, YearCount(today));
    if s.0.Err? then (Err(s.0.error), s.1) else (Ok(YearSeriesJson(s.0.value, show)), s.1)
  }

  class Dashboard {
    var store: map<string, Body>
    var log: seq<Event>
    const env: Env

    function State(): World
      reads this
    {
      World(store, log)
    }

    constructor (env: Env, store: map<string, Body>)
      ensures this.env == env && State() == World(store, [])
    {
      this.env := env;
      this.store := store;
      this.log := [];
    }

    // -------------------------------------------------------------------
    // The calls the aggregators make

    /** store.Lookup(key): the stored body, or None on any lookup error. */
    method Lookup(key: string) returns (entry: Option<Body>)
      modifies this
      ensures State() == Look(old(State()), key)
      ensures entry == if Hit(env, State(), key) then Some(store[key]) else None
    {
      log := log + [Looked(key)];
      entry := if key in store && key !in env.unreadable then Some(store[key]) else None;
    }

    /** The upstream range query From=from&To=to. */
    method Query(from: int, to: int) returns (response: Outcome<Body>)
      modifies this
      ensures State() == Fetch(old(State()), from, to)
      ensures response == env.upstream(from, to)
    {
      log := log + [Fetched(from, to)];
      response := env.upstream(from, to);
    }

    /** store.Insert(key, body): false when the store refuses it. */
    method Insert(key: string, body: Body) returns (ok: bool)
      modifies this
      ensures State() == Put(env, old(State()), key, body)
      ensures ok == (key !in env.rejects)
    {
      log := log + [Inserted(key)];
      ok := key !in env.rejects;
      if ok {
        store := store[key := body];
      }
    }

    /** store.Delete(key): false when the store fails it. */
    method Delete(key: string) returns (ok: bool)
      modifies this
      ensures State() == Remove(env, old(State()), key)
      ensures ok == (key !in env.undeletable)
    {
      log := log + [Deleted(key)];
      ok := key !in env.undeletable;
      if ok {
        store := store - {key};
      }
    }

    // -------------------------------------------------------------------
    // getMonthlyData (main.go:424-505)

    /** The sum of the records' energyYield, in order (main.go:489-493). */
    static method SumRecords(data: seq<Entry>) returns (total: real)
      ensures total == SumYield(data)
    {
      total := 0.0;
      var i := 0;
      while i < |data|
        invariant 0 <= i <= |data|
        invariant total == SumYield(data[..i])
      {
        assert data[..i + 1][..i] == data[..i];
        total := total + data[i].energyYield;
        i := i + 1;
      }
      assert data[..i] == data;
    }

    /** The cache rule of getMonthlyData for a fixed key, period and window. */
    method FetchMonth(key: string, period: string, window: (int, int), current: bool) returns (r: Outcome<real>)
      modifies this
      ensures CachedMonth(env, old(State()), key, period, window, current) == (r, State())
    {
      if !env.storeUp {
        return Err(StoreUnavailable);
      }
      if !current {
        var entry := Lookup(key);
        if entry.Some? {
          return FirstYield(entry.value);
        }
      }
      var response := Query(window.0, window.1);
      if response.Err? {
        return Err(response.error);
      }
      var kwh: real;
      match response.value {
        case Doc(data) =>
          kwh := SumRecords(data);
        case NoData =>
          kwh := 0.0;
        case _ =>
          return Err(Malformed);
      }
      var mwh := kwh / 1000.0;
      if !current {
        var _ := Insert(key, StoredTotal(period, mwh));
      }
      return Ok(mwh);
    }

    method GetMonthlyData(y: nat, m: int, today: Date) returns (r: Outcome<real>)
      requires 1 <= m <= 12
      modifies this
      ensures Monthly(env, old(State()), y, m, today) == (r, State())
    {
      r := FetchMonth(MonthlyKey(y, m), MonthStamp(y, m), MonthWindow(y, m), IsCurrentMonth(y, m, today));
    }

    // -------------------------------------------------------------------
    // The month loops (main.go:630-636, 728-734, 741-747)

    /** One turn of the month loop: month m of year y added to the running
        total of months 1 .. m-1, begun in world w0. */
    method AddMonth(ghost w0: World, y: nat, m: int, today: Date, total: real) returns (r: Outcome<real>)
      requires 1 <= m <= 12
      requires MonthsTotal(env, w0, y, m - 1, today) == (Ok(total), State())
      modifies this
      ensures MonthsTotal(env, w0, y, m, today) == (r, State())
    {
      ghost var w := State();
      var monthly := GetMonthlyData(y, m, today);
      MonthsTotalStep(env, w0, y, m, today, total, w, monthly, State());
      r := if monthly.Err? then monthly else Ok(total + monthly.value);
    }

    /** getMonthlyData for months 1 .. k of year y, summed in order; the
        first failure is returned at once. */
    method SumMonths(y: nat, k: int, today: Date) returns (r: Outcome<real>)
      requires k <= 12
      modifies this
      ensures MonthsTotal(env, old(State()), y, k, today) == (r, State())
    {
      ghost var w0 := State();
      var total := 0.0;
      var month := 1;
      while month <= k
        invariant 1 <= month <= if k < 1 then 1 else k + 1
        invariant MonthsTotal(env, w0, y, month - 1, today) == (Ok(total), State())
      {
        var next := AddMonth(w0, y, month, today, total);
        if next.Err? {
          MonthsTotalStopsAtFailure(env, w0, y, month, k, today);
          return next;
        }
        total := next.value;
        month := month + 1;
      }
      if k < 1 {
        assert MonthsTotal(env, w0, y, k, today) == (Ok(0.0), w0);
      } else {
        assert month - 1 == k;
      }
      return Ok(total);
    }

    // -------------------------------------------------------------------
    // getYearlyData (main.go:604-645)

    method GetYearlyData(y: nat, today: Date) returns (r: Outcome<real>)
      modifies this
      ensures Yearly(env, old(State()), y, today) == (r, State())
    {
      if !env.storeUp {
        return Err(StoreUnavailable);
      }
      var current := y == today.year;
      var key := YearlyKey(y);
      if !current {
        var entry := Lookup(key);
        if entry.Some? {
          return FirstYield(entry.value);
        }
      }
      r := SumMonths(y, 12, today);
      if r.Ok? && !current {
        var _ := Insert(key, YearlyPayload(y, r.value));
      }
    }

    // -------------------------------------------------------------------
    // getYearToDateTotal and getYearToDateTotalForYear (main.go:722-749)

    method GetYearToDateTotal(today: Date) returns (r: Outcome<real>)
      requires IsToday(today)
      modifies this
      ensures MonthsTotal(env, old(State()), today.year, today.month, today) == (r, State())
    {
      r := SumMonths(today.year, today.month, today);
    }

    method GetYearToDateTotalForYear(y: nat, upToMonth: int, today: Date) returns (r: Outcome<real>)
      requires upToMonth <= 12
      modifies this
      ensures MonthsTotal(env, old(State()), y, upToMonth, today) == (r, State())
    {
      r := SumMonths(y, upToMonth, today);
    }

    /** The year-to-date figures of index (main.go:249-262). */
    method IndexYearToDate(today: Date) returns (r: Outcome<(real, real)>)
      requires IsToday(today)
      modifies this
      ensures YearToDate(env, old(State()), today) == (r, State())
    {
      ghost var w := State();
      var total := GetYearToDateTotal(today);
      if total.Err? {
        YearToDateOfFailure(env, w, today, total, State());
        return Err(total.error);
      }
      ghost var w1 := State();
      var prior := GetYearToDateTotalForYear(today.year - 1, today.month, today);
      YearToDateOfSuccess(env, w, today, total, w1, prior, State());
      return Ok((total.value, YoYChange(total.value, prior)));
    }

    // -------------------------------------------------------------------
    // last30 (main.go:321-371) and getYear (main.go:373-422)

    /** The raw-body cache shared by last30 and getYear. */
    method FetchRaw(key: string, window: (int, int), evict: Option<string>) returns (r: Outcome<Body>)
      modifies this
      ensures CachedRaw(env, old(State()), key, window, evict) == (r, State())
    {
      if !env.storeUp {
        return Err(StoreUnavailable);
      }
      var entry := Lookup(key);
      if entry.Some? {
        return Ok(entry.value);
      }
      var response := Query(window.0, window.1);
      if response.Err? {
        return Err(response.error);
      }
      var stored := Insert(key, response.value);
      if !stored {
        return Ok(Blank);
      }
      if evict.Some? {
        var _ := Delete(evict.value);
      }
      return Ok(response.value);
    }

    method GetLast30(today: Date) returns (r: Outcome<Body>)
      requires IsToday(today)
      modifies this
      ensures Last30(env, old(State()), today) == (r, State())
    {
      TodayIsLate(today);
      r := FetchRaw(DayKey(DaysBack(today, 1)), Last30Window(today), Some(DayKey(DaysBack(today, 31))));
    }

    method GetYear(y: nat) returns (r: Outcome<Body>)
      modifies this
      ensures RawYear(env, old(State()), y) == (r, State())
    {
      r := FetchRaw(YearKey(y), YearWindow(y), None);
    }

    // -------------------------------------------------------------------
    // getLast12Months (main.go:507-602)

    /** One turn of the loop of getLast12Months (main.go:520-557): the
        point of the i-th trailing month, from this month's total and the
        same month's total one year earlier. */
    method MonthPointFor(today: Date, i: nat) returns (r: Outcome<MonthPoint>)
      requires IsToday(today)
      modifies this
      ensures MonthPointAt(env, old(State()), today, i) == (r, State())
    {
      ghost var w := State();
      var month := TrailingMonth(today, i);
      var y := month.0;
      var m := month.1;
      var current := GetMonthlyData(y, m, today);
      if current.Err? {
        MonthPointAtOfFailure(env, w, today, i, current, State());
        return Err(current.error);
      }
      ghost var w1 := State();
      var prior := GetMonthlyData(y - 1, m, today);
      MonthPointAtOfSuccess(env, w, today, i, current, w1, prior, State());
      return Ok(MonthPointOf(y, m, today, current.value, prior));
    }

    method GetLast12Months(today: Date, show: real -> string) returns (r: Outcome<string>)
      requires IsToday(today)
      modifies this
      ensures Last12MonthsBody(env, old(State()), today, show) == (r, State())
    {
      ghost var w0 := State();
      var points: seq<MonthPoint> := [];
      var i := 0;
      while i < 12
        invariant 0 <= i <= 12
        invariant Run(MonthStep(env, today), w0, i) == (Ok(points), State())
      {
        RunStep(MonthStep(env, today), w0, i, points, State());
        var point := MonthPointFor(today, i);
        if point.Err? {
          RunStopsAtFailure(MonthStep(env, today), w0, i + 1, 12);
          return Err(point.error);
        }
        points := points + [point.value];
        i := i + 1;
      }
      var json := BuildMonthSeriesJson(points, show);
      return Ok(json);
    }

    // -------------------------------------------------------------------
    // getYearsSince2020 (main.go:647-720)

    /** One turn of the loop of getYearsSince2020 (main.go:657-686): the
        point of year y, from its total and the total of the year before. */
    method YearPointFor(y: nat, today: Date) returns (r: Outcome<YearPoint>)
      requires y >= 1
      modifies this
      ensures YearPointAt(env, old(State()), y, today) == (r, State())
    {
      ghost var w := State();
      var current := GetYearlyData(y, today);
      if current.Err? {
        YearPointAtOfFailure(env, w, y, today, current, State());
        return Err(current.error);
      }
      ghost var w1 := State();
      var prior := GetYearlyData(y - 1, today);
      YearPointAtOfSuccess(env, w, y, today, current, w1, prior, State());
      return Ok(YearPointOf(y, current.value, prior));
    }

    method GetYearsSince2020(today: Date, show: real -> string) returns (r: Outcome<string>)
      modifies this
      ensures YearsSince2020Body(env, old(State()), today, show) == (r, State())
    {
      ghost var w0 := State();
      ghost var n: nat := 0;
      var points: seq<YearPoint> := [];
      var year := FirstSeriesYear;
      while year <= today.year
        invariant FirstSeriesYear <= year <= if today.year < FirstSeriesYear then FirstSeriesYear else today.year + 1
        invariant year == FirstSeriesYear + n
        invariant Run(YearStep(env, today), w0, n) == (Ok(points), State())
      {
        RunStep(YearStep(env, today), w0, n, points, State());
        var point := YearPointFor(year, today);
        if point.Err? {
          RunStopsAtFailure(YearStep(env, today), w0, n + 1, YearCount(today));
          return Err(point.error);
        }
        points := points + [point.value];
        year := year + 1;
        n := n + 1;
      }
      assert n == YearCount(today);
      var json := BuildYearSeriesJson(points, show);
      return Ok(json);
    }
  }
}
