/** The cache discipline of the aggregators as a state machine over a world
    made of the key-value store and a log of every store and upstream call.
    Each function maps a world to a result and the next world; the
    Dashboard class is proved to follow these functions step for step. */
module CacheModel {
  import opened Wrappers
  import opened Calendar
  import opened Keys
  import opened Payload

  /** One interaction with the outside: a store lookup, an upstream range
      query, a store insert (attempted) or a store delete. */
  datatype Event = Looked(key: string) | Fetched(from: int, to: int) | Inserted(key: string) | Deleted(key: string)

  datatype World = World(store: map<string, Body>, log: seq<Event>)

  /** What the code calls but cannot see: the upstream range query, whether
      the store opens at all, and the keys on which a store call fails: an
      insert is refused, a lookup returns an error although the key is
      present, a delete returns an error and leaves the key in place. */
  datatype Env = Env(upstream: (int, int) -> Outcome<Body>, storeUp: bool,
                     rejects: set<string>, unreadable: set<string>, undeletable: set<string>)

  /** A lookup finds the key: it is stored and the store reads it. Any
      lookup error is treated as a miss. */
  predicate Hit(env: Env, w: World, key: string) {
    key in w.store && key !in env.unreadable
  }

  function Look(w: World, key: string): World {
    w.(log := w.log + [Looked(key)])
  }

  function Fetch(w: World, from: int, to: int): World {
    w.(log := w.log + [Fetched(from, to)])
  }

  /** An insert: logged, and applied unless the store refuses that key. */
  function Put(env: Env, w: World, key: string, body: Body): World {
    World(if key in env.rejects then w.store else w.store[key := body], w.log + [Inserted(key)])
  }

  /** A delete: logged, and applied unless the store fails it. */
  function Remove(env: Env, w: World, key: string): World {
    World(if key in env.undeletable then w.store else w.store - {key}, w.log + [Deleted(key)])
  }

  /** The events a step appended to the log. */
  function Appended(before: World, after: World): seq<Event>
    requires |before.log| <= |after.log|
  {
    after.log[|before.log|..]
  }

  predicate Extends(before: World, after: World) {
    |before.log| <= |after.log| && after.log[..|before.log|] == before.log
  }

  // ---------------------------------------------------------------------
  // getMonthlyData (main.go:424-505)

  predicate IsCurrentMonth(y: nat, m: int, today: Date) {
    y == today.year && m == today.month
  }

  /** The cache rule of getMonthlyData once the month's key, the period it
      is stored under and its window are fixed. Outside the current month
      the key is looked up first and a hit is returned as stored; otherwise
      the window is fetched, its records summed and divided by 1000, and
      the total is inserted unless the month is the current one. */
  function CachedMonth(env: Env, w: World, key: string, period: string, window: (int, int), current: bool)
    : (Outcome<real>, World)
  {
    if !env.storeUp then (Err(StoreUnavailable), w)
    else
      var w1 := if current then w else Look(w, key);
      if !current && Hit(env, w, key) then (FirstYield(w.store[key]), w1)
      else
        var w2 := Fetch(w1, window.0, window.1);
        match env.upstream(window.0, window.1)
        case Err(e) => (Err(e), w2)
        case Ok(body) =>
          match BodyYield(body)
          case Err(e) => (Err(e), w2)
          case Ok(kwh) =>
            var mwh := kwh / 1000.0;
            (Ok(mwh), if current then w2 else Put(env, w2, key, StoredTotal(period, mwh)))
  }

  /** Energy yield of month (y, m) in MWh, cached under its month key. */
  function Monthly(env: Env, w: World, y: nat, m: int, today: Date): (Outcome<real>, World)
    requires 1 <= m <= 12
  {
    CachedMonth(env, w, MonthlyKey(y, m), MonthStamp(y, m), MonthWindow(y, m), IsCurrentMonth(y, m, today))
  }

  // ---------------------------------------------------------------------
  // The month loops of getYearlyData, getYearToDateTotal and
  // getYearToDateTotalForYear (main.go:630-636, 728-734, 741-747)

  /** The sum of Monthly(y, 1), ..., Monthly(y, k), computed in that order,
      stopping at the first month that fails. */
  function MonthsTotal(env: Env, w: World, y: nat, k: int, today: Date): (Outcome<real>, World)
    requires k <= 12
    decreases k, w
  {
    if k <= 0 then (Ok(0.0), w)
    else
      var sofar := MonthsTotal(env, w, y, k - 1, today);
      if sofar.0.Err? then sofar
      else
        var month := Monthly(env, sofar.1, y, k, today);
        if month.0.Err? then month else (Ok(sofar.0.value + month.0.value), month.1)
  }

  // ---------------------------------------------------------------------
  // getYearlyData (main.go:604-645)

  /** Energy yield of year y in MWh, by the same rule as Monthly with the
      year key: outside the current year a stored value is returned as is;
      otherwise the twelve months are summed and, outside the current year,
      the total is inserted. A failing month fails the year. */
  function Yearly(env: Env, w: World, y: nat, today: Date): (Outcome<real>, World) {
    if !env.storeUp then (Err(StoreUnavailable), w)
    else
      var key := YearlyKey(y);
      var current := y == today.year;
      var w1 := if current then w else Look(w, key);
      if !current && Hit(env, w, key) then (FirstYield(w.store[key]), w1)
      else
        var total := MonthsTotal(env, w1, y, 12, today);
        if total.0.Err? || current then total
        else (total.0, Put(env, total.1, key, YearlyPayload(y, total.0.value)))
  }

  // ---------------------------------------------------------------------
  // last30 (main.go:321-371)

  /** The query window of last30: the 30 whole days before today's midnight. */
  function Last30Window(today: Date): (int, int)
    requires ValidDate(today)
  {
    (UnixTime(today, 0) - 30 * SecondsPerDay, UnixTime(today, 0) - 1)
  }

  /** The raw-body cache of last30 and getYear: a hit returns the stored
      body; a miss fetches the window and inserts the body under the key.
      When the insert fails the body is dropped and the empty text is
      returned as a success, because the error returned at that point is
      the (nil) read error. When it succeeds, the key to evict, if any, is
      deleted; a failing delete is ignored and the result is the body. */
  function CachedRaw(env: Env, w: World, key: string, window: (int, int), evict: Option<string>)
    : (Outcome<Body>, World)
  {
    if !env.storeUp then (Err(StoreUnavailable), w)
    else
      var w1 := Look(w, key);
      if Hit(env, w, key) then (Ok(w.store[key]), w1)
      else
        var w2 := Fetch(w1, window.0, window.1);
        match env.upstream(window.0, window.1)
        case Err(e) => (Err(e), w2)
        case Ok(body) =>
          var w3 := Put(env, w2, key, body);
          if key in env.rejects then (Ok(Blank), w3)
          else if evict.Some? then (Ok(body), Remove(env, w3, evict.value))
          else (Ok(body), w3)
  }

  /** The raw body of the last 30 days, cached under yesterday's day key;
      a miss evicts the key of the day 31 days back. */
  function Last30(env: Env, w: World, today: Date): (Outcome<Body>, World)
    requires IsToday(today)
  {
    TodayIsLate(today);
    CachedRaw(env, w, DayKey(DaysBack(today, 1)), Last30Window(today), Some(DayKey(DaysBack(today, 31))))
  }

  // ---------------------------------------------------------------------
  // getYear (main.go:373-422)

  /** The raw body of a whole year, cached under the bare year key with no
      regard to whether the year is over. */
  function RawYear(env: Env, w: World, y: nat): (Outcome<Body>, World) {
    CachedRaw(env, w, YearKey(y), YearWindow(y), None)
  }
}
