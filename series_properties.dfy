/** What the rollup series promise: the twelve trailing months are
    consecutive, oldest first, and end at the current month, which is the
    only point flagged current; the yearly series has one point per year
    from 2022, labelled in order; every point's capacity factor is its yield
    as a percentage of the nominal maximum; the first failing period call
    aborts the series, a failing prior-period call only zeroes the change. */
module SeriesProperties {
  import opened Wrappers
  import opened Calendar
  import opened Keys
  import opened Payload
  import opened Rollup
  import opened CacheModel
  import opened CacheProperties
  import opened SeriesModel

  lemma MonthIndexInjective(y1: nat, m1: int, y2: nat, m2: int)
    requires 1 <= m1 <= 12 && 1 <= m2 <= 12
    ensures MonthIndex(y1, m1) == MonthIndex(y2, m2) <==> y1 == y2 && m1 == m2
  {
    MonthIndexRoundTrip(y1, m1);
    MonthIndexRoundTrip(y2, m2);
  }

  // ---------------------------------------------------------------------
  // The loop shape shared by both series

  /** When every step that succeeds yields a point fitting its position, a
      run that succeeds has one point per step, each fitting its position. */
  lemma {:induction false} RunShape<P>(step: (World, nat) -> (Outcome<P>, World), w: World, n: nat,
                                       fits: (P, nat) -> bool)
    requires forall v: World, i: nat :: i < n && step(v, i).0.Ok? ==> fits(step(v, i).0.value, i)
    ensures var r := Run(step, w, n).0;
      r.Ok? ==> |r.value| == n && forall i :: 0 <= i < n ==> fits(r.value[i], i)
  {
    if n > 0 {
      RunShape(step, w, n - 1, fits);
      var (sofar, w1) := Run(step, w, n - 1);
      if sofar.Ok? {
        var point := step(w1, n - 1).0;
        if point.Ok? {
          var r := sofar.value + [point.value];
          assert Run(step, w, n).0 == Ok(r);
          assert forall i :: 0 <= i < n - 1 ==> r[i] == sofar.value[i];
        }
      }
    }
  }

  /** One more step after n that succeeded: step n runs on the world the
      run left, and either its failure ends the run or its point is
      appended. */
  lemma RunStep<P>(step: (World, nat) -> (Outcome<P>, World), w: World, n: nat, points: seq<P>, v: World)
    requires Run(step, w, n) == (Ok(points), v)
    ensures Run(step, w, n + 1)
      == var p := step(v, n);
         if p.0.Err? then (Err(p.0.error), p.1) else (Ok(points + [p.0.value]), p.1)
  {
  }

  /** Once a step has failed no later step runs: the outcome and the world
      stay those of the failure. */
  lemma {:induction false} RunStopsAtFailure<P>(step: (World, nat) -> (Outcome<P>, World), w: World, k: nat, n: nat)
    requires k <= n && Run(step, w, k).0.Err?
    ensures Run(step, w, n) == Run(step, w, k)
    decreases n - k
  {
    if k < n {
      RunStopsAtFailure(step, w, k, n - 1);
    }
  }

  /** The first failing step ends the whole run with its failure. */
  lemma RunAbortsAt<P>(step: (World, nat) -> (Outcome<P>, World), w: World, i: nat, n: nat)
    requires i < n && Run(step, w, i).0.Ok?
    requires step(Run(step, w, i).1, i).0.Err?
    ensures Run(step, w, n).0 == Err(step(Run(step, w, i).1, i).0.error)
  {
    RunStopsAtFailure(step, w, i + 1, n);
  }

  // ---------------------------------------------------------------------
  // The monthly series

  /** The months visited run one after another; step 11 is the current
      month and step 0 the month after the current month of the year
      before; only step 11 is the current month. */
  lemma TrailingMonthsShape(today: Date, i: nat)
    requires IsToday(today)
    ensures MonthIndex(TrailingMonth(today, i + 1).0, TrailingMonth(today, i + 1).1)
         == MonthIndex(TrailingMonth(today, i).0, TrailingMonth(today, i).1) + 1
    ensures TrailingMonth(today, 11).0 == today.year && TrailingMonth(today, 11).1 == today.month
    ensures MonthIndex(TrailingMonth(today, 0).0, TrailingMonth(today, 0).1)
         == MonthIndex(today.year - 1, today.month) + 1
    ensures IsCurrentMonth(TrailingMonth(today, i).0, TrailingMonth(today, i).1, today) <==> i == 11
  {
    var (y, m) := TrailingMonth(today, 11);
    MonthIndexInjective(y, m, today.year, today.month);
    var (yi, mi) := TrailingMonth(today, i);
    MonthIndexInjective(yi, mi, today.year, today.month);
  }

  /** What the point of step i carries: the label of the month visited, the
      current flag exactly at step 11, and the capacity factor of its yield
      over the month's calendar length in hours (24 times its 28 to 31
      days); CapacityFactorMeaning says what that percentage is. */
  predicate MonthPointFits(p: MonthPoint, today: Date, i: nat)
    requires IsToday(today)
  {
    var (y, m) := TrailingMonth(today, i);
    && p.monthLabel == MonthLabel(y, m)
    && (p.isCurrent <==> i == 11)
    && p.capacityFactor == CapacityFactor(p.energyYield, (DaysInMonth(y, m) * 24) as real)
  }

  /** The point built at step i from a yield v fits step i. */
  lemma MonthPointFitsAt(today: Date, i: nat, v: real, prior: Outcome<real>)
    requires IsToday(today)
    ensures var (y, m) := TrailingMonth(today, i);
      MonthPointFits(MonthPointOf(y, m, today, v, prior), today, i)
  {
    var (y, m) := TrailingMonth(today, i);
    TrailingMonthsShape(today, i);
    MonthHoursIsCalendarLength(y, m);
  }

  /** Step i succeeds exactly when the month's own yield does, whatever the
      prior-year call returns, and then carries the point of that yield
      and of the prior-year outcome. */
  lemma MonthPointAtMeaning(env: Env, w: World, today: Date, i: nat)
    requires IsToday(today)
    ensures var (y, m) := TrailingMonth(today, i);
      var (current, w1) := Monthly(env, w, y, m, today);
      var point := MonthPointAt(env, w, today, i).0;
      && (point.Ok? <==> current.Ok?)
      && (point.Err? ==> point.error == current.error)
      && (point.Ok? ==> point.value == MonthPointOf(y, m, today, current.value, Monthly(env, w1, y - 1, m, today).0))
      && MonthPointAt(env, w, today, i).1 == if current.Err? then w1 else Monthly(env, w1, y - 1, m, today).1
  {
    var month := TrailingMonth(today, i);
    var current := Monthly(env, w, month.0, month.1, today);
    if current.0.Ok? {
      var prior := Monthly(env, current.1, month.0 - 1, month.1, today);
      MonthPointAtOfSuccess(env, w, today, i, current.0, current.1, prior.0, prior.1);
    } else {
      MonthPointAtOfFailure(env, w, today, i, current.0, current.1);
    }
  }

  /** A step whose month fails fails with it. */
  lemma MonthPointAtOfFailure(env: Env, w: World, today: Date, i: nat, current: Outcome<real>, w1: World)
    requires IsToday(today)
    requires Monthly(env, w, TrailingMonth(today, i).0, TrailingMonth(today, i).1, today) == (current, w1)
    requires current.Err?
    ensures MonthPointAt(env, w, today, i) == (Err(current.error), w1)
  {
  }

  /** A step whose month succeeds gives the point of its yield and of the
      prior-year outcome, whichever that is. */
  lemma MonthPointAtOfSuccess(env: Env, w: World, today: Date, i: nat, current: Outcome<real>, w1: World, prior: Outcome<real>, w2: World)
    requires IsToday(today)
    requires Monthly(env, w, TrailingMonth(today, i).0, TrailingMonth(today, i).1, today) == (current, w1)
    requires current.Ok?
    requires Monthly(env, w1, TrailingMonth(today, i).0 - 1, TrailingMonth(today, i).1, today) == (prior, w2)
    ensures MonthPointAt(env, w, today, i)
      == (Ok(MonthPointOf(TrailingMonth(today, i).0, TrailingMonth(today, i).1, today, current.value, prior)), w2)
  {
  }

  /** A successful run of n steps has n points, each fitting its step. */
  lemma MonthSeriesShape(env: Env, w: World, today: Date, n: nat)
    requires IsToday(today)
    ensures var r := MonthSeries(env, w, today, n).0;
      r.Ok? ==> |r.value| == n && forall i :: 0 <= i < n ==> MonthPointFits(r.value[i], today, i)
  {
    var step := MonthStep(env, today);
    forall v: World, i: nat | i < n && step(v, i).0.Ok?
      ensures MonthPointFits(step(v, i).0.value, today, i)
    {
      MonthStepFits(env, v, today, i);
    }
    RunShape(step, w, n, (p: MonthPoint, i: nat) => MonthPointFits(p, today, i));
  }

  /** Step i of the twelve-month loop, when it succeeds, fits position i. */
  lemma MonthStepFits(env: Env, w: World, today: Date, i: nat)
    requires IsToday(today)
    ensures var p := MonthPointAt(env, w, today, i).0;
      p.Ok? ==> MonthPointFits(p.value, today, i)
  {
    var month := TrailingMonth(today, i);
    var current := Monthly(env, w, month.0, month.1, today);
    if current.0.Ok? {
      var prior := Monthly(env, current.1, month.0 - 1, month.1, today);
      MonthPointAtOfSuccess(env, w, today, i, current.0, current.1, prior.0, prior.1);
      MonthPointFitsAt(today, i, current.0.value, prior.0);
    } else {
      MonthPointAtOfFailure(env, w, today, i, current.0, current.1);
    }
  }

  /** The first getMonthlyData failure for a visited month aborts the whole
      twelve-month series with that failure. */
  lemma MonthSeriesAbortsOnMonthFailure(env: Env, w: World, today: Date, i: nat)
    requires IsToday(today) && i < 12
    requires MonthSeries(env, w, today, i).0.Ok?
    requires var (y, m) := TrailingMonth(today, i);
      Monthly(env, MonthSeries(env, w, today, i).1, y, m, today).0.Err?
    ensures var (y, m) := TrailingMonth(today, i);
      MonthSeries(env, w, today, 12).0
      == Err(Monthly(env, MonthSeries(env, w, today, i).1, y, m, today).0.error)
  {
    var v := MonthSeries(env, w, today, i).1;
    var current := Monthly(env, v, TrailingMonth(today, i).0, TrailingMonth(today, i).1, today);
    MonthPointAtOfFailure(env, v, today, i, current.0, current.1);
    RunAbortsAt(MonthStep(env, today), w, i, 12);
  }

  /** Mid-June 2025: the series starts at July 2024 (and, by
      TrailingMonthsShape, ends at June 2025). */
  lemma June2025Months()
    ensures IsToday(Date(2025, 6, 15))
    ensures TrailingMonth(Date(2025, 6, 15), 0).0 == 2024 && TrailingMonth(Date(2025, 6, 15), 0).1 == 7
  {
  }

  /** The first point of that series reads "Jul 2024", and the yearly series
      has the four points 2022 to 2025. */
  lemma June2025Labels()
    ensures MonthLabel(2024, 7) == "Jul 2024"
    ensures YearCount(Date(2025, 6, 15)) == 4
  {
    assert Digits(2024) == "2024" by {
      assert Digits(2) == "2" && Digits(20) == "20" && Digits(202) == "202";
    }
  }

  // ---------------------------------------------------------------------
  // The yearly series

  /** What the point at position i carries: the label of year 2022 + i,
      which reads back as that year, and the capacity factor of its yield
      (converted back from GWh to MWh) over the year's 8784 hours when it
      is a leap year and 8760 otherwise. */
  predicate YearPointFits(p: YearPoint, i: nat) {
    var y := FirstSeriesYear + i;
    && p.yearLabel == Digits(y)
    && AllDigits(p.yearLabel) && ParseDigits(p.yearLabel) == y
    && p.capacityFactor == CapacityFactor(p.energyYield * 1000.0, if IsLeap(y) then 8784.0 else 8760.0)
  }

  /** The point built for year 2022 + i from a yield v fits position i. */
  lemma YearPointFitsAt(i: nat, v: real, prior: Outcome<real>)
    ensures YearPointFits(YearPointOf(FirstSeriesYear + i, v, prior), i)
  {
    var y := FirstSeriesYear + i;
    YearHoursIsCalendarLength(y);
    ParseDigitsOfDigits(y);
  }

  /** A year succeeds exactly when getYearlyData for it does, whatever the
      year before returns, and then carries the point of that yield and of
      the prior-year outcome. */
  lemma YearPointAtMeaning(env: Env, w: World, y: nat, today: Date)
    requires y >= 1
    ensures var (current, w1) := Yearly(env, w, y, today);
      var point := YearPointAt(env, w, y, today).0;
      && (point.Ok? <==> current.Ok?)
      && (point.Err? ==> point.error == current.error)
      && (point.Ok? ==> point.value == YearPointOf(y, current.value, Yearly(env, w1, y - 1, today).0))
      && YearPointAt(env, w, y, today).1 == if current.Err? then w1 else Yearly(env, w1, y - 1, today).1
  {
    var current := Yearly(env, w, y, today);
    if current.0.Ok? {
      var prior := Yearly(env, current.1, y - 1, today);
      YearPointAtOfSuccess(env, w, y, today, current.0, current.1, prior.0, prior.1);
    } else {
      YearPointAtOfFailure(env, w, y, today, current.0, current.1);
    }
  }

  /** A year whose own getYearlyData call fails fails with it. */
  lemma YearPointAtOfFailure(env: Env, w: World, y: nat, today: Date, current: Outcome<real>, w1: World)
    requires y >= 1
    requires Yearly(env, w, y, today) == (current, w1) && current.Err?
    ensures YearPointAt(env, w, y, today) == (Err(current.error), w1)
  {
  }

  /** A year whose own call succeeds gives the point of its yield and of
      the prior-year outcome, whichever that is. */
  lemma YearPointAtOfSuccess(env: Env, w: World, y: nat, today: Date, current: Outcome<real>, w1: World, prior: Outcome<real>, w2: World)
    requires y >= 1
    requires Yearly(env, w, y, today) == (current, w1) && current.Ok?
    requires Yearly(env, w1, y - 1, today) == (prior, w2)
    ensures YearPointAt(env, w, y, today) == (Ok(YearPointOf(y, current.value, prior)), w2)
  {
  }

  /** A successful run over n years has n points, the i-th for year 2022 + i. */
  lemma YearSeriesShape(env: Env, w: World, today: Date, n: nat)
    ensures var r := YearSeries(env, w, today, n).0;
      r.Ok? ==> |r.value| == n && forall i :: 0 <= i < n ==> YearPointFits(r.value[i], i)
  {
    var step := YearStep(env, today);
    forall v: World, i: nat | i < n && step(v, i).0.Ok?
      ensures YearPointFits(step(v, i).0.value, i)
    {
      YearStepFits(env, v, today, i);
    }
    RunShape(step, w, n, (p: YearPoint, i: nat) => YearPointFits(p, i));
  }

  /** Step i of the yearly loop, when it succeeds, fits position i. */
  lemma YearStepFits(env: Env, w: World, today: Date, i: nat)
    ensures var p := YearPointAt(env, w, FirstSeriesYear + i, today).0;
      p.Ok? ==> YearPointFits(p.value, i)
  {
    var y := FirstSeriesYear + i;
    var current := Yearly(env, w, y, today);
    if current.0.Ok? {
      var prior := Yearly(env, current.1, y - 1, today);
      YearPointAtOfSuccess(env, w, y, today, current.0, current.1, prior.0, prior.1);
      YearPointFitsAt(i, current.0.value, prior.0);
    } else {
      YearPointAtOfFailure(env, w, y, today, current.0, current.1);
    }
  }

  /** The first getYearlyData failure aborts the whole yearly series with
      that failure. */
  lemma YearSeriesAbortsOnYearFailure(env: Env, w: World, today: Date, i: nat)
    requires i < YearCount(today)
    requires YearSeries(env, w, today, i).0.Ok?
    requires Yearly(env, YearSeries(env, w, today, i).1, FirstSeriesYear + i, today).0.Err?
    ensures YearSeries(env, w, today, YearCount(today)).0
      == Err(Yearly(env, YearSeries(env, w, today, i).1, FirstSeriesYear + i, today).0.error)
  {
    var v := YearSeries(env, w, today, i).1;
    var current := Yearly(env, v, FirstSeriesYear + i, today);
    YearPointAtOfFailure(env, v, FirstSeriesYear + i, today, current.0, current.1);
    RunAbortsAt(YearStep(env, today), w, i, YearCount(today));
  }

  /** getYearsSince2020 has one point per year from 2022 to the current
      year, labelled with those years in increasing order. */
  lemma YearsSince2020Points(env: Env, w: World, today: Date)
    ensures var r := YearSeries(env, w, today, YearCount(today)).0;
      r.Ok? ==>
        && |r.value| == (if today.year >= 2022 then today.year - 2021 else 0)
        && (forall i :: 0 <= i < |r.value| ==> r.value[i].yearLabel == Digits(2022 + i))
        && (|r.value| > 0 ==> r.value[|r.value| - 1].yearLabel == Digits(today.year))
  {
    YearSeriesShape(env, w, today, YearCount(today));
  }

  // ---------------------------------------------------------------------
  // Year to date

  /** When the current year's months fail, the page fails with them. */
  lemma YearToDateOfFailure(env: Env, w: World, today: Date, total: Outcome<real>, w1: World)
    requires IsToday(today)
    requires MonthsTotal(env, w, today.year, today.month, today) == (total, w1) && total.Err?
    ensures YearToDate(env, w, today) == (Err(total.error), w1)
  {
  }

  /** When they succeed, the page shows their total and its change against
      the prior-year outcome, whichever that is. */
  lemma YearToDateOfSuccess(env: Env, w: World, today: Date, total: Outcome<real>, w1: World, prior: Outcome<real>, w2: World)
    requires IsToday(today)
    requires MonthsTotal(env, w, today.year, today.month, today) == (total, w1) && total.Ok?
    requires MonthsTotal(env, w1, today.year - 1, today.month, today) == (prior, w2)
    ensures YearToDate(env, w, today) == (Ok((total.value, YoYChange(total.value, prior))), w2)
  {
  }

  /** The page fails exactly when the current year's months do, with their
      failure; otherwise it shows their total and the YoY change against
      the same months of the year before, which is 0 when those fail
      (YoYChangeMeaning says what the change is otherwise). */
  lemma YearToDateMeaning(env: Env, w: World, today: Date)
    requires IsToday(today)
    ensures var (total, w1) := MonthsTotal(env, w, today.year, today.month, today);
      var prior := MonthsTotal(env, w1, today.year - 1, today.month, today).0;
      var r := YearToDate(env, w, today).0;
      && (r.Ok? <==> total.Ok?)
      && (r.Err? ==> r.error == total.error)
      && (r.Ok? ==> r.value.0 == total.value && r.value.1 == YoYChange(total.value, prior))
      && (r.Ok? && prior.Err? ==> r.value.1 == 0.0)
  {
    var total := MonthsTotal(env, w, today.year, today.month, today);
    if total.0.Ok? {
      var prior := MonthsTotal(env, total.1, today.year - 1, today.month, today);
      YearToDateOfSuccess(env, w, today, total.0, total.1, prior.0, prior.1);
    } else {
      YearToDateOfFailure(env, w, today, total.0, total.1);
    }
  }
}
