/** What the cache discipline guarantees, stated over the CacheModel state
    machine: which keys a call may look up or write, that a hit costs no
    upstream call, that the current period is never cached, and the quirks
    of the discipline as written (future months cached for good, an insert
    failure reported as an empty success). */
module CacheProperties {
  import opened Wrappers
  import opened Calendar
  import opened Keys
  import opened Payload
  import opened CacheModel

  /** The step from before to after only appended to the log, and left the
      key alone: same presence and value in the store, and no lookup, insert
      or delete of it in the appended events. */
  predicate Untouched(before: World, after: World, key: string) {
    && Extends(before, after)
    && (key in before.store <==> key in after.store)
    && (key in before.store ==> after.store[key] == before.store[key])
    && forall i :: |before.log| <= i < |after.log| ==>
         after.log[i] != Looked(key) && after.log[i] != Inserted(key) && after.log[i] != Deleted(key)
  }

  lemma UntouchedTransitive(a: World, b: World, c: World, key: string)
    requires Untouched(a, b, key) && Untouched(b, c, key)
    ensures Untouched(a, c, key)
  {
    forall i | |a.log| <= i < |c.log|
      ensures c.log[i] != Looked(key) && c.log[i] != Inserted(key) && c.log[i] != Deleted(key)
    {
      if i < |b.log| {
        assert c.log[i] == c.log[..|b.log|][i] == b.log[i];
      }
    }
    assert c.log[..|a.log|] == c.log[..|b.log|][..|a.log|];
  }

  lemma StepsUntouched(w: World, key: string, k: string, from: int, to: int, env: Env, b: Body)
    requires k != key
    ensures Untouched(w, w, key)
    ensures Untouched(w, Look(w, k), key)
    ensures Untouched(w, Fetch(w, from, to), key)
    ensures Untouched(w, Put(env, w, k, b), key)
    ensures Untouched(w, Remove(env, w, k), key)
  {
  }

  // ---------------------------------------------------------------------
  // Monthly

  /** For the current month the store is neither read nor written: the one
      effect of the call is the upstream query of the month window. */
  lemma MonthlyCurrentMonthUncached(env: Env, w: World, y: nat, m: int, today: Date)
    requires 1 <= m <= 12 && IsCurrentMonth(y, m, today)
    ensures env.storeUp ==> Monthly(env, w, y, m, today).1 == Fetch(w, MonthWindow(y, m).0, MonthWindow(y, m).1)
    ensures !env.storeUp ==> Monthly(env, w, y, m, today).1 == w
    ensures Untouched(w, Monthly(env, w, y, m, today).1, MonthlyKey(y, m))
  {
  }

  /** The current month's figure is always live: the month window's
      records summed and divided by 1000. It fails exactly when the query
      fails or its body is not JSON, whatever the store holds. */
  lemma MonthlyCurrentMonthLive(env: Env, w: World, y: nat, m: int, today: Date)
    requires 1 <= m <= 12 && IsCurrentMonth(y, m, today) && env.storeUp
    ensures var window := MonthWindow(y, m);
      var response := env.upstream(window.0, window.1);
      var r := Monthly(env, w, y, m, today).0;
      && (r.Ok? <==> response.Ok? && BodyYield(response.value).Ok?)
      && (r.Ok? ==> r.value == BodyYield(response.value).value / 1000.0)
      && (response.Err? ==> r == Err(response.error))
  {
  }

  /** Outside the current month a stored value that the store reads is
      returned as stored, and the only effect is the lookup: no upstream call. */
  lemma MonthlyHitNoFetch(env: Env, w: World, y: nat, m: int, today: Date)
    requires 1 <= m <= 12 && env.storeUp && !IsCurrentMonth(y, m, today)
    requires Hit(env, w, MonthlyKey(y, m))
    ensures Monthly(env, w, y, m, today)
         == (FirstYield(w.store[MonthlyKey(y, m)]), Look(w, MonthlyKey(y, m)))
  {
    CachedMonthHit(env, w, MonthlyKey(y, m), MonthStamp(y, m), MonthWindow(y, m));
  }

  lemma CachedMonthHit(env: Env, w: World, key: string, period: string, window: (int, int))
    requires env.storeUp && Hit(env, w, key)
    ensures CachedMonth(env, w, key, period, window, false) == (FirstYield(w.store[key]), Look(w, key))
  {
  }

  /** Outside the current month, past or future alike, a miss (the key is
      absent, or its lookup fails) looks up, fetches the month window, and on
      success returns the records' total divided by 1000 and inserts it
      under the month key, overwriting what the failed lookup could not read. */
  lemma MonthlyMissFetchesThenInserts(env: Env, w: World, y: nat, m: int, today: Date, body: Body)
    requires 1 <= m <= 12 && env.storeUp && !IsCurrentMonth(y, m, today)
    requires !Hit(env, w, MonthlyKey(y, m))
    requires env.upstream(MonthWindow(y, m).0, MonthWindow(y, m).1) == Ok(body)
    requires BodyYield(body).Ok?
    ensures var (r, w') := Monthly(env, w, y, m, today);
      var key := MonthlyKey(y, m);
      && r == Ok(BodyYield(body).value / 1000.0)
      && w'.log == w.log + [Looked(key), Fetched(MonthWindow(y, m).0, MonthWindow(y, m).1), Inserted(key)]
      && w'.store == (if key in env.rejects then w.store else w.store[key := MonthlyPayload(y, m, r.value)])
  {
    CachedMonthMiss(env, w, MonthlyKey(y, m), MonthStamp(y, m), MonthWindow(y, m), body);
  }

  lemma CachedMonthMiss(env: Env, w: World, key: string, period: string, window: (int, int), body: Body)
    requires env.storeUp && !Hit(env, w, key)
    requires env.upstream(window.0, window.1) == Ok(body)
    requires BodyYield(body).Ok?
    ensures var mwh := BodyYield(body).value / 1000.0;
      CachedMonth(env, w, key, period, window, false)
      == (Ok(mwh), World(if key in env.rejects then w.store else w.store[key := StoredTotal(period, mwh)],
                         w.log + [Looked(key), Fetched(window.0, window.1), Inserted(key)]))
  {
    assert w.log + [Looked(key)] + [Fetched(window.0, window.1)] + [Inserted(key)]
        == w.log + [Looked(key), Fetched(window.0, window.1), Inserted(key)];
  }

  /** A miss fails exactly when the query fails or its body is not JSON.
      The call then returns that error, and after the lookup and the query
      nothing is inserted: the store is as it was, so no figure is cached
      for a failed fetch. */
  lemma CachedMonthFailedMiss(env: Env, w: World, key: string, period: string, window: (int, int))
    requires env.storeUp && !Hit(env, w, key)
    ensures var response := env.upstream(window.0, window.1);
      var (r, w') := CachedMonth(env, w, key, period, window, false);
      && (r.Err? <==> response.Err? || BodyYield(response.value).Err?)
      && (response.Err? ==> r == Err(response.error))
      && (response.Ok? && BodyYield(response.value).Err? ==> r == Err(BodyYield(response.value).error))
      && (r.Err? ==> w'.store == w.store && w'.log == w.log + [Looked(key), Fetched(window.0, window.1)])
  {
  }

  /** Outside the current month a miss whose fetch fails returns the error
      and leaves the store, the month key included, as it was. */
  lemma MonthlyFailedMiss(env: Env, w: World, y: nat, m: int, today: Date)
    requires 1 <= m <= 12 && env.storeUp && !IsCurrentMonth(y, m, today)
    requires !Hit(env, w, MonthlyKey(y, m))
    ensures var window := MonthWindow(y, m);
      var response := env.upstream(window.0, window.1);
      var (r, w') := Monthly(env, w, y, m, today);
      && (r.Err? <==> response.Err? || BodyYield(response.value).Err?)
      && (response.Err? ==> r == Err(response.error))
      && (r.Err? ==> w'.store == w.store
                     && w'.log == w.log + [Looked(MonthlyKey(y, m)), Fetched(window.0, window.1)])
  {
    CachedMonthFailedMiss(env, w, MonthlyKey(y, m), MonthStamp(y, m), MonthWindow(y, m));
  }

  /** The month cache step leaves every key but its own alone. */
  lemma CachedMonthOnlyTouchesItsKey(env: Env, w: World, k: string, period: string, window: (int, int),
                                     current: bool, key: string)
    requires key != k
    ensures Untouched(w, CachedMonth(env, w, k, period, window, current).1, key)
  {
    if env.storeUp {
      var w1 := if current then w else Look(w, k);
      var w2 := Fetch(w1, window.0, window.1);
      StepsUntouched(w, key, k, window.0, window.1, env, Blank);
      StepsUntouched(w1, key, k, window.0, window.1, env, Blank);
      UntouchedTransitive(w, w1, w2, key);
      if !current && !Hit(env, w, k) && env.upstream(window.0, window.1).Ok?
         && BodyYield(env.upstream(window.0, window.1).value).Ok?
      {
        var b := StoredTotal(period, BodyYield(env.upstream(window.0, window.1).value).value / 1000.0);
        StepsUntouched(w2, key, k, window.0, window.1, env, b);
        UntouchedTransitive(w, w2, Put(env, w2, k, b), key);
      }
    } else {
      StepsUntouched(w, key, k, 0, 0, env, Blank);
    }
  }

  /** A call for month (y, m) leaves every other key alone. */
  lemma MonthlyOnlyTouchesItsKey(env: Env, w: World, y: nat, m: int, today: Date, key: string)
    requires 1 <= m <= 12 && key != MonthlyKey(y, m)
    ensures Untouched(w, Monthly(env, w, y, m, today).1, key)
  {
    CachedMonthOnlyTouchesItsKey(env, w, MonthlyKey(y, m), MonthStamp(y, m), MonthWindow(y, m),
                                 IsCurrentMonth(y, m, today), key);
  }

  /** Outside the current month, once a call has succeeded (and the store
      accepts inserts of and lookups of the key) a second call returns the
      same value and costs only a lookup. */
  lemma MonthlyRepeatIsCached(env: Env, w: World, y: nat, m: int, today: Date)
    requires 1 <= m <= 12 && env.storeUp && !IsCurrentMonth(y, m, today)
    requires MonthlyKey(y, m) !in env.rejects && MonthlyKey(y, m) !in env.unreadable
    requires Monthly(env, w, y, m, today).0.Ok?
    ensures var (r1, w1) := Monthly(env, w, y, m, today);
      Monthly(env, w1, y, m, today) == (r1, Look(w1, MonthlyKey(y, m)))
  {
    var key := MonthlyKey(y, m);
    var (r1, w1) := Monthly(env, w, y, m, today);
    if !Hit(env, w, key) {
      assert w1.store[key] == MonthlyPayload(y, m, r1.value);
    }
  }

  /** A month asked for before it began is cached like a past one: whatever
      the upstream returned then (no records give 0) is what every later
      call returns, once the month is over too, with no new query. */
  lemma FutureMonthFrozen(env: Env, w: World, y: nat, m: int, before: Date, later: Date, env2: Env)
    requires 1 <= m <= 12 && env.storeUp && env2.storeUp && IsToday(before) && IsToday(later)
    requires MonthIndex(before.year, before.month) < MonthIndex(y, m)
    requires MonthlyKey(y, m) !in w.store && MonthlyKey(y, m) !in env.rejects
    requires Monthly(env, w, y, m, before).0.Ok?
    requires !IsCurrentMonth(y, m, later) && MonthlyKey(y, m) !in env2.unreadable
    ensures var (r1, w1) := Monthly(env, w, y, m, before);
      Monthly(env2, w1, y, m, later) == (r1, Look(w1, MonthlyKey(y, m)))
  {
    var key := MonthlyKey(y, m);
    assert !IsCurrentMonth(y, m, before);
    var (r1, w1) := Monthly(env, w, y, m, before);
    assert w1.store[key] == MonthlyPayload(y, m, r1.value);
  }

  /** The concrete case: April 2024, records totalling 75000 kWh, gives
      75 MWh, stored under "monthly-202404". */
  lemma April2024Example(env: Env, w: World, today: Date, records: seq<Entry>)
    requires env.storeUp && !IsCurrentMonth(2024, 4, today)
    requires "monthly-202404" !in w.store && "monthly-202404" !in env.rejects
    requires env.upstream(MonthWindow(2024, 4).0, MonthWindow(2024, 4).1) == Ok(Doc(records))
    requires SumYield(records) == 75000.0
    ensures MonthlyKey(2024, 4) == "monthly-202404"
    ensures MonthWindow(2024, 4).1 - MonthWindow(2024, 4).0 + 1 == 30 * 86400
    ensures Monthly(env, w, 2024, 4, today).0 == Ok(75.0)
    ensures Monthly(env, w, 2024, 4, today).1.store == w.store["monthly-202404" := MonthlyPayload(2024, 4, 75.0)]
  {
    MonthWindowSpan(2024, 4);
    assert Digits(2024) == "2024" by {
      assert Digits(2) == "2" && Digits(20) == "20" && Digits(202) == "202";
    }
    assert Padded(4, 2) == "04";
  }

  // ---------------------------------------------------------------------
  // The month loops

  /** Once the running total has failed, later months are never asked for:
      the outcome and the world stay those of the first failure. */
  lemma {:induction false} MonthsTotalStopsAtFailure(env: Env, w: World, y: nat, k: int, k': int, today: Date)
    requires k <= k' <= 12 && MonthsTotal(env, w, y, k, today).0.Err?
    ensures MonthsTotal(env, w, y, k', today) == MonthsTotal(env, w, y, k, today)
    decreases k' - k
  {
    if k < k' {
      MonthsTotalStopsAtFailure(env, w, y, k, k' - 1, today);
    }
  }

  /** The month loops touch nothing but the month keys of their own months. */
  lemma {:induction false} MonthsTotalOnlyTouchesMonthKeys(env: Env, w: World, y: nat, k: int, today: Date, key: string)
    requires k <= 12
    requires forall j :: 1 <= j <= 12 ==> key != MonthlyKey(y, j)
    ensures Untouched(w, MonthsTotal(env, w, y, k, today).1, key)
    decreases k
  {
    if k > 0 {
      MonthsTotalOnlyTouchesMonthKeys(env, w, y, k - 1, today, key);
      var (sofar, w1) := MonthsTotal(env, w, y, k - 1, today);
      if sofar.Ok? {
        MonthlyOnlyTouchesItsKey(env, w1, y, k, today, key);
        UntouchedTransitive(w, w1, Monthly(env, w1, y, k, today).1, key);
      }
    }
  }

  /** An independent reading of the month loop over a cached past: the sum
      of the values stored for months 1..k. */
  function StoredMonthsSum(store: map<string, Body>, y: nat, k: int): real
    requires k <= 12
    requires forall j :: 1 <= j <= k ==> MonthlyKey(y, j) in store && FirstYield(store[MonthlyKey(y, j)]).Ok?
    decreases k, store
  {
    if k <= 0 then 0.0
    else StoredMonthsSum(store, y, k - 1) + FirstYield(store[MonthlyKey(y, k)]).value
  }

  /** One turn of the month loop: from a running total over months
      1..k-1 that succeeded, month k either fails, and its failure is the
      outcome, or succeeds and is added to the total. */
  lemma MonthsTotalStep(env: Env, w: World, y: nat, k: int, today: Date, total: real, v: World,
                        month: Outcome<real>, v': World)
    requires 1 <= k <= 12
    requires MonthsTotal(env, w, y, k - 1, today) == (Ok(total), v)
    requires Monthly(env, v, y, k, today) == (month, v')
    ensures MonthsTotal(env, w, y, k, today) == if month.Err? then (month, v') else (Ok(total + month.value), v')
  {
  }

  lemma LogAppendAssociative(a: seq<Event>, b: seq<Event>, c: seq<Event>)
    ensures a + (b + c) == a + b + c
  {
  }

  /** The lookups of months 1..k of year y, in order. */
  function MonthLookups(y: nat, k: int): seq<Event>
    requires k <= 12
    decreases k
  {
    if k <= 0 then [] else MonthLookups(y, k - 1) + [Looked(MonthlyKey(y, k))]
  }

  /** When months 1..k of a year other than the current one are all cached,
      the month loop returns the sum of the stored values, leaves the store
      as it was and makes no upstream query: its log gains the k lookups and
      nothing else. */
  lemma {:induction false} MonthsTotalOfCachedMonths(env: Env, w: World, y: nat, k: int, today: Date)
    requires k <= 12 && env.storeUp && y != today.year
    requires forall j :: 1 <= j <= k ==> MonthlyKey(y, j) in w.store && MonthlyKey(y, j) !in env.unreadable && FirstYield(w.store[MonthlyKey(y, j)]).Ok?
    ensures MonthsTotal(env, w, y, k, today).0.Ok?
    ensures MonthsTotal(env, w, y, k, today).0.value == StoredMonthsSum(w.store, y, k)
    ensures MonthsTotal(env, w, y, k, today).1.store == w.store
    ensures MonthsTotal(env, w, y, k, today).1.log == w.log + MonthLookups(y, k)
    decreases k
  {
    if k > 0 {
      MonthsTotalOfCachedMonths(env, w, y, k - 1, today);
      var w1 := MonthsTotal(env, w, y, k - 1, today).1;
      var key := MonthlyKey(y, k);
      MonthlyHitNoFetch(env, w1, y, k, today);
      var month := Monthly(env, w1, y, k, today);
      MonthsTotalStep(env, w, y, k, today, MonthsTotal(env, w, y, k - 1, today).0.value, w1, month.0, month.1);
      assert MonthsTotal(env, w, y, k, today).0.value == MonthsTotal(env, w, y, k - 1, today).0.value + FirstYield(w.store[key]).value;
      LogAppendAssociative(w.log, MonthLookups(y, k - 1), [Looked(key)]);
    } else {
      assert w.log + MonthLookups(y, k) == w.log;
    }
  }

  // ---------------------------------------------------------------------
  // Yearly

  lemma YearlyKeyIsNoMonthKey(y: nat, y': nat)
    ensures forall j :: 1 <= j <= 12 ==> YearlyKey(y) != MonthlyKey(y', j)
  {
    forall j | 1 <= j <= 12 ensures YearlyKey(y) != MonthlyKey(y', j) {
      assert YearlyKey(y)[0] == 'y' && MonthlyKey(y', j)[0] == 'm';
    }
  }

  /** For the current year the year key is neither read nor written. */
  lemma YearlyCurrentYearUncached(env: Env, w: World, y: nat, today: Date)
    requires y == today.year
    ensures Untouched(w, Yearly(env, w, y, today).1, YearlyKey(y))
  {
    YearlyKeyIsNoMonthKey(y, y);
    MonthsTotalOnlyTouchesMonthKeys(env, w, y, 12, today, YearlyKey(y));
  }

  /** The current year's figure is always live: the sum of its twelve
      months, with exactly their effects and nothing else, whatever the
      store holds under the year key. */
  lemma YearlyCurrentYearSumsMonths(env: Env, w: World, y: nat, today: Date)
    requires env.storeUp && y == today.year
    ensures Yearly(env, w, y, today) == MonthsTotal(env, w, y, 12, today)
  {
  }

  /** Outside the current year a stored value that the store reads is
      returned as stored after a lookup alone. */
  lemma YearlyHitNoFetch(env: Env, w: World, y: nat, today: Date)
    requires env.storeUp && y != today.year && Hit(env, w, YearlyKey(y))
    ensures Yearly(env, w, y, today) == (FirstYield(w.store[YearlyKey(y)]), Look(w, YearlyKey(y)))
  {
  }

  /** Outside the current year a miss (absent key or failing lookup) is the
      sum of the twelve months. A success is inserted under the year key; a
      failing month fails the year, and after the lookup the year key is
      neither inserted nor deleted and keeps its value: no partial year is
      ever cached. */
  lemma YearlyMissSumsMonths(env: Env, w: World, y: nat, today: Date)
    requires env.storeUp && y != today.year && !Hit(env, w, YearlyKey(y))
    ensures var (r, w') := Yearly(env, w, y, today);
      var (total, wm) := MonthsTotal(env, Look(w, YearlyKey(y)), y, 12, today);
      && r == total
      && (r.Ok? && YearlyKey(y) !in env.rejects ==> w'.store[YearlyKey(y)] == YearlyPayload(y, r.value))
      && (r.Err? ==> Untouched(Look(w, YearlyKey(y)), w', YearlyKey(y)))
  {
    YearlyKeyIsNoMonthKey(y, y);
    MonthsTotalOnlyTouchesMonthKeys(env, Look(w, YearlyKey(y)), y, 12, today, YearlyKey(y));
  }

  // ---------------------------------------------------------------------
  // last30

  /** The last30 window runs from the midnight that starts the day 30 days
      ago to the last second of yesterday; yesterday's key names the day of
      its last second, and the evicted key names the day of the second
      just before it. */
  lemma Last30WindowDays(today: Date)
    requires IsToday(today)
    ensures DayNumber(today) >= 31
    ensures Last30Window(today).0 == UnixTime(DaysBack(today, 30), 0)
    ensures Last30Window(today).1 == UnixTime(DaysBack(today, 1), SecondsPerDay - 1)
    ensures Last30Window(today).0 - 1 == UnixTime(DaysBack(today, 31), SecondsPerDay - 1)
    ensures Last30Window(today).1 - Last30Window(today).0 + 1 == 30 * SecondsPerDay
  {
    TodayIsLate(today);
    DaysBackUnixTime(today, 30, 0);
    DaysBackUnixTime(today, 1, SecondsPerDay - 1);
    DaysBackUnixTime(today, 31, SecondsPerDay - 1);
  }

  /** A hit on yesterday's key (stored, and read by the store) returns the
      stored body: no query, no insert, no delete. */
  lemma Last30HitNoFetch(env: Env, w: World, today: Date)
    requires IsToday(today) && env.storeUp
    ensures DayNumber(today) >= 1
    ensures var key := DayKey(DaysBack(today, 1));
      Hit(env, w, key) ==> Last30(env, w, today) == (Ok(w.store[key]), Look(w, key))
  {
    TodayIsLate(today);
  }

  /** A miss (absent key or failing lookup) whose insert the store accepts:
      one lookup, one query, one insert, and the eviction if there is one,
      which removes the evicted key unless the store fails the delete. */
  lemma CachedRawMiss(env: Env, w: World, key: string, window: (int, int), evict: Option<string>, body: Body)
    requires env.storeUp && !Hit(env, w, key) && key !in env.rejects
    requires env.upstream(window.0, window.1) == Ok(body)
    ensures var r := CachedRaw(env, w, key, window, evict);
      var events := [Looked(key), Fetched(window.0, window.1), Inserted(key)];
      && r.0 == Ok(body)
      && r.1.log == w.log + events + (if evict.Some? then [Deleted(evict.value)] else [])
      && r.1.store == if evict.Some? && evict.value !in env.undeletable then w.store[key := body] - {evict.value}
                      else w.store[key := body]
  {
    var w3 := Put(env, Fetch(Look(w, key), window.0, window.1), key, body);
    assert w3.log == w.log + [Looked(key), Fetched(window.0, window.1), Inserted(key)];
  }

  /** A miss with an eviction of another key: the body is returned and
      stored under its key whether or not the delete succeeds; the evicted
      key is gone when the delete succeeds and left as it was when it fails. */
  lemma CachedRawMissEvicts(env: Env, w: World, key: string, window: (int, int), evicted: string, body: Body)
    requires env.storeUp && !Hit(env, w, key) && key !in env.rejects && key != evicted
    requires env.upstream(window.0, window.1) == Ok(body)
    ensures var r := CachedRaw(env, w, key, window, Some(evicted));
      && r.0 == Ok(body)
      && r.1.log == w.log + [Looked(key), Fetched(window.0, window.1), Inserted(key), Deleted(evicted)]
      && key in r.1.store && r.1.store[key] == body
      && (evicted !in env.undeletable ==> evicted !in r.1.store)
      && (evicted in env.undeletable ==> (evicted in r.1.store <==> evicted in w.store))
      && forall k :: k != key && k != evicted ==> (k in r.1.store <==> k in w.store)
  {
    CachedRawMiss(env, w, key, window, Some(evicted), body);
  }

  /** A miss fetches the window, stores the body under yesterday's key and
      deletes the key of the day 31 days back. Yesterday's key and the
      evicted key differ, so afterwards the body is stored; the day that
      left the window is gone unless the store failed the delete, which is
      ignored: the result is the body either way. */
  lemma Last30MissSlides(env: Env, w: World, today: Date, body: Body)
    requires IsToday(today) && env.storeUp
    requires !Hit(env, w, DayKey(DaysBack(today, 1))) && DayKey(DaysBack(today, 1)) !in env.rejects
    requires env.upstream(Last30Window(today).0, Last30Window(today).1) == Ok(body)
    ensures var key := DayKey(DaysBack(today, 1));
      var evicted := DayKey(DaysBack(today, 31));
      var r := Last30(env, w, today);
      && r.0 == Ok(body)
      && r.1.log == w.log + [Looked(key), Fetched(Last30Window(today).0, Last30Window(today).1),
                             Inserted(key), Deleted(evicted)]
      && key in r.1.store && r.1.store[key] == body
      && (evicted !in env.undeletable ==> evicted !in r.1.store)
      && (evicted in env.undeletable ==> (evicted in r.1.store <==> evicted in w.store))
  {
    var key := DayKey(DaysBack(today, 1));
    var evicted := DayKey(DaysBack(today, 31));
    DayKeyDistinctNearby(DaysBack(today, 31), DaysBack(today, 1));
    CachedRawMissEvicts(env, w, key, Last30Window(today), evicted, body);
  }

  /** A miss fails exactly when the query fails. The call then returns the
      query's error after the lookup and the query alone: no insert, no
      eviction, and the store as it was. */
  lemma CachedRawFailedMiss(env: Env, w: World, key: string, window: (int, int), evict: Option<string>)
    requires env.storeUp && !Hit(env, w, key)
    ensures var response := env.upstream(window.0, window.1);
      var (r, w') := CachedRaw(env, w, key, window, evict);
      && (r.Err? <==> response.Err?)
      && (response.Err? ==> r == Err(response.error) && w'.store == w.store
                            && w'.log == w.log + [Looked(key), Fetched(window.0, window.1)])
  {
  }

  /** A last30 miss whose query fails returns the error; yesterday's key is
      not inserted and the day that left the window is not evicted. */
  lemma Last30FailedQuery(env: Env, w: World, today: Date)
    requires IsToday(today) && env.storeUp
    requires !Hit(env, w, DayKey(DaysBack(today, 1)))
    ensures var window := Last30Window(today);
      var response := env.upstream(window.0, window.1);
      var (r, w') := Last30(env, w, today);
      && (r.Err? <==> response.Err?)
      && (response.Err? ==> r == Err(response.error) && w'.store == w.store
                            && w'.log == w.log + [Looked(DayKey(DaysBack(today, 1))), Fetched(window.0, window.1)])
  {
    TodayIsLate(today);
    CachedRawFailedMiss(env, w, DayKey(DaysBack(today, 1)), Last30Window(today), Some(DayKey(DaysBack(today, 31))));
  }

  /** As written, a refused insert is reported as success with the empty
      text, though the upstream answered: nothing is stored or deleted. */
  lemma Last30InsertFailureIsBlankSuccess(env: Env, w: World, today: Date, body: Body)
    requires IsToday(today) && env.storeUp
    requires !Hit(env, w, DayKey(DaysBack(today, 1))) && DayKey(DaysBack(today, 1)) in env.rejects
    requires env.upstream(Last30Window(today).0, Last30Window(today).1) == Ok(body)
    ensures Last30(env, w, today).0 == Ok(Blank)
    ensures BodyYield(Blank).Err?
    ensures Last30(env, w, today).1.store == w.store
  {
  }

  // ---------------------------------------------------------------------
  // getYear

  /** The raw year is cached whatever the year: a miss (absent key or
      failing lookup) queries the whole year and stores the body under the
      bare year key. A second call is then served from the store with one
      lookup and no query; when the store cannot read the key back, the
      second call queries the year again and inserts its answer. */
  lemma RawYearCachesUnconditionally(env: Env, w: World, y: nat, body: Body)
    requires env.storeUp && !Hit(env, w, YearKey(y)) && YearKey(y) !in env.rejects
    requires env.upstream(YearWindow(y).0, YearWindow(y).1) == Ok(body)
    ensures YearWindow(y).1 - YearWindow(y).0 + 1 == DaysInYear(y) * SecondsPerDay
    ensures RawYear(env, w, y).0 == Ok(body)
    ensures RawYear(env, w, y).1.store == w.store[YearKey(y) := body]
    ensures var w1 := RawYear(env, w, y).1;
      YearKey(y) !in env.unreadable ==> RawYear(env, w1, y) == (Ok(body), Look(w1, YearKey(y)))
    ensures var w1 := RawYear(env, w, y).1;
      YearKey(y) in env.unreadable ==>
        RawYear(env, w1, y).1.log == w1.log + [Looked(YearKey(y)), Fetched(YearWindow(y).0, YearWindow(y).1), Inserted(YearKey(y))]
  {
    YearWindowSpan(y);
  }

  /** A getYear miss whose query fails returns the error and caches
      nothing under the year key. */
  lemma RawYearFailedQuery(env: Env, w: World, y: nat)
    requires env.storeUp && !Hit(env, w, YearKey(y))
    ensures var response := env.upstream(YearWindow(y).0, YearWindow(y).1);
      var (r, w') := RawYear(env, w, y);
      && (r.Err? <==> response.Err?)
      && (response.Err? ==> r == Err(response.error) && w'.store == w.store
                            && w'.log == w.log + [Looked(YearKey(y)), Fetched(YearWindow(y).0, YearWindow(y).1)])
  {
    CachedRawFailedMiss(env, w, YearKey(y), YearWindow(y), None);
  }
}
