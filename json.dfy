/** The hand-built JSON of getLast12Months and getYearsSince2020: one
    object of parallel arrays, each array the comma-separated rendering of
    one field of the series points. Number formatting (Go's %f) is a
    parameter `show`. */
module Json {
  import opened Calendar
  import opened Keys
  import opened Rollup
  import opened CacheModel
  import opened SeriesModel
  import opened SeriesProperties

  /** Items separated by commas, as the `if i > 0 { result += "," }` loops
      produce them. */
  function Join(items: seq<string>): string {
    if |items| == 0 then ""
    else if |items| == 1 then items[0]
    else items[0] + "," + Join(items[1..])
  }

  predicate CommaFree(s: string) {
    forall k :: 0 <= k < |s| ==> s[k] != ','
  }

  /** Position of the first comma. */
  function FirstComma(s: string): (k: nat)
    requires !CommaFree(s)
    ensures k < |s| && s[k] == ',' && CommaFree(s[..k])
  {
    if s[0] == ',' then 0
    else
      var k := FirstComma(s[1..]) + 1;
      assert s[..k] == [s[0]] + s[1..][..k - 1];
      k
  }

  /** The pieces between commas (one piece when there is none). */
  function SplitCommas(s: string): (pieces: seq<string>)
    ensures |pieces| >= 1
    decreases |s|
  {
    if CommaFree(s) then [s]
    else
      var k := FirstComma(s);
      [s[..k]] + SplitCommas(s[k + 1..])
  }

  /** Splitting a join of comma-free items at its commas gives the items
      back, so each array lists exactly its items, in order. */
  lemma {:induction false} SplitJoin(items: seq<string>)
    requires |items| >= 1
    requires forall i :: 0 <= i < |items| ==> CommaFree(items[i])
    ensures SplitCommas(Join(items)) == items
    decreases |items|
  {
    if |items| > 1 {
      var head, rest := items[0], Join(items[1..]);
      var s := head + "," + rest;
      assert s[|head|] == ',';
      assert !CommaFree(s);
      var k := FirstComma(s);
      assert s[..k] == head;
      assert s[k + 1..] == rest;
      SplitJoin(items[1..]);
      assert items == [head] + items[1..];
    }
  }

  /** Joining one more item after a non-empty list adds a comma and the item. */
  lemma {:induction false} JoinSnoc(items: seq<string>, x: string)
    requires |items| >= 1
    ensures Join(items + [x]) == Join(items) + "," + x
    decreases |items|
  {
    if |items| == 1 {
      assert (items + [x])[1..] == [x];
    } else {
      assert (items + [x])[1..] == items[1..] + [x];
      JoinSnoc(items[1..], x);
    }
  }

  /** The loop of the source: append each item to acc, preceded by a comma
      from the second item on. */
  method AppendJoined(acc: string, items: seq<string>) returns (r: string)
    ensures r == acc + Join(items)
  {
    r := acc;
    var i := 0;
    while i < |items|
      invariant 0 <= i <= |items|
      invariant r == acc + Join(items[..i])
    {
      if i > 0 {
        r := r + ",";
        JoinSnoc(items[..i], items[i]);
      } else {
        assert Join(items[..1]) == items[0];
      }
      r := r + items[i];
      assert items[..i + 1] == items[..i] + [items[i]];
      i := i + 1;
    }
    assert items[..i] == items;
  }

  function Quoted(s: string): string {
    "\"" + s + "\""
  }

  function BoolText(b: bool): string {
    if b then "true" else "false"
  }

  /** One rendered item per point, in the points' order: the entries one
      array's loop writes, one formatted slice element at a time. */
  function Items<P>(points: seq<P>, render: P -> string): (items: seq<string>)
    ensures |items| == |points|
    ensures forall i :: 0 <= i < |points| ==> items[i] == render(points[i])
  {
    if |points| == 0 then [] else [render(points[0])] + Items(points[1..], render)
  }

  /** Items that carry no comma split back out of the array they are
      joined into. */
  lemma ItemsReadBack<P>(points: seq<P>, render: P -> string)
    requires |points| >= 1
    requires forall i :: 0 <= i < |points| ==> CommaFree(render(points[i]))
    ensures SplitCommas(Join(Items(points, render))) == Items(points, render)
  {
    SplitJoin(Items(points, render));
  }

  // ---------------------------------------------------------------------
  // The arrays of the monthly series

  function MonthLabels(points: seq<MonthPoint>): seq<string> {
    Items(points, (p: MonthPoint) => Quoted(p.monthLabel))
  }

  function MonthYields(points: seq<MonthPoint>, show: real -> string): seq<string> {
    Items(points, (p: MonthPoint) => show(p.energyYield))
  }

  function MonthFlags(points: seq<MonthPoint>): seq<string> {
    Items(points, (p: MonthPoint) => BoolText(p.isCurrent))
  }

  function MonthFactors(points: seq<MonthPoint>, show: real -> string): seq<string> {
    Items(points, (p: MonthPoint) => show(p.capacityFactor))
  }

  function MonthChanges(points: seq<MonthPoint>, show: real -> string): seq<string> {
    Items(points, (p: MonthPoint) => show(p.yoyChange))
  }

  /** {"months":[...],"energyYield":[...],"isCurrentMonth":[...],
      "capacityFactor":[...],"yoyChange":[...]} */
  function MonthSeriesJson(points: seq<MonthPoint>, show: real -> string): string {
    "{\"months\":[" + Join(MonthLabels(points))
    + "],\"energyYield\":[" + Join(MonthYields(points, show))
    + "],\"isCurrentMonth\":[" + Join(MonthFlags(points))
    + "],\"capacityFactor\":[" + Join(MonthFactors(points, show))
    + "],\"yoyChange\":[" + Join(MonthChanges(points, show))
    + "]}"
  }

  // ---------------------------------------------------------------------
  // The arrays of the yearly series

  function YearLabels(points: seq<YearPoint>): seq<string> {
    Items(points, (p: YearPoint) => Quoted(p.yearLabel))
  }

  function YearYields(points: seq<YearPoint>, show: real -> string): seq<string> {
    Items(points, (p: YearPoint) => show(p.energyYield))
  }

  function YearFactors(points: seq<YearPoint>, show: real -> string): seq<string> {
    Items(points, (p: YearPoint) => show(p.capacityFactor))
  }

  function YearChanges(points: seq<YearPoint>, show: real -> string): seq<string> {
    Items(points, (p: YearPoint) => show(p.yoyChange))
  }

  /** {"years":[...],"energyYield":[...],"capacityFactor":[...],"yoyChange":[...]} */
  function YearSeriesJson(points: seq<YearPoint>, show: real -> string): string {
    "{\"years\":[" + Join(YearLabels(points))
    + "],\"energyYield\":[" + Join(YearYields(points, show))
    + "],\"capacityFactor\":[" + Join(YearFactors(points, show))
    + "],\"yoyChange\":[" + Join(YearChanges(points, show))
    + "]}"
  }

  // ---------------------------------------------------------------------
  // The builders, loop by loop as the source writes them

  method BuildMonthSeriesJson(points: seq<MonthPoint>, show: real -> string) returns (r: string)
    ensures r == MonthSeriesJson(points, show)
  {
    r := AppendJoined("{\"months\":[", MonthLabels(points));
    r := AppendJoined(r + "],\"energyYield\":[", MonthYields(points, show));
    r := AppendJoined(r + "],\"isCurrentMonth\":[", MonthFlags(points));
    r := AppendJoined(r + "],\"capacityFactor\":[", MonthFactors(points, show));
    r := AppendJoined(r + "],\"yoyChange\":[", MonthChanges(points, show));
    r := r + "]}";
  }

  method BuildYearSeriesJson(points: seq<YearPoint>, show: real -> string) returns (r: string)
    ensures r == YearSeriesJson(points, show)
  {
    r := AppendJoined("{\"years\":[", YearLabels(points));
    r := AppendJoined(r + "],\"energyYield\":[", YearYields(points, show));
    r := AppendJoined(r + "],\"capacityFactor\":[", YearFactors(points, show));
    r := AppendJoined(r + "],\"yoyChange\":[", YearChanges(points, show));
    r := r + "]}";
  }

  // ---------------------------------------------------------------------
  // What a reader of the JSON gets back

  lemma CommaFreeConcat(a: string, b: string)
    requires CommaFree(a) && CommaFree(b)
    ensures CommaFree(a + b)
  {
    assert forall k :: 0 <= k < |a + b| ==> (a + b)[k] == if k < |a| then a[k] else b[k - |a|];
  }

  lemma DigitsCommaFree(s: string)
    requires AllDigits(s)
    ensures CommaFree(s)
  {
    assert forall k :: 0 <= k < |s| ==> IsDigit(s[k]);
  }

  /** Month labels and year labels carry no comma, quoted or not. */
  lemma MonthLabelCommaFree(y: nat, m: int)
    requires 1 <= m <= 12
    ensures CommaFree(MonthLabel(y, m)) && CommaFree(Quoted(MonthLabel(y, m)))
  {
    var name := MonthNames[m - 1];
    assert CommaFree(name) by {
      assert forall j :: 0 <= j < 12 ==> CommaFree(MonthNames[j]);
    }
    DigitsCommaFree(Padded(y, 4));
    CommaFreeConcat(name, " ");
    CommaFreeConcat(name + " ", Padded(y, 4));
    CommaFreeConcat("\"", MonthLabel(y, m));
    CommaFreeConcat("\"" + MonthLabel(y, m), "\"");
  }

  lemma QuotedCommaFree(s: string)
    requires CommaFree(s)
    ensures CommaFree(Quoted(s))
  {
    CommaFreeConcat("\"", s);
    CommaFreeConcat("\"" + s, "\"");
  }

  /** A successful getLast12Months body lists twelve quoted month labels,
      the i-th for the i-th month of the window, which a reader splits back
      out of the "months" array. */
  lemma Last12MonthsLabels(env: Env, w: World, today: Date)
    requires IsToday(today)
    ensures var r := MonthSeries(env, w, today, 12).0;
      r.Ok? ==>
        && |MonthLabels(r.value)| == 12
        && SplitCommas(Join(MonthLabels(r.value))) == MonthLabels(r.value)
        && forall i :: 0 <= i < 12 ==>
             MonthLabels(r.value)[i] == Quoted(MonthLabel(TrailingMonth(today, i).0, TrailingMonth(today, i).1))
  {
    MonthSeriesShape(env, w, today, 12);
    var r := MonthSeries(env, w, today, 12).0;
    if r.Ok? {
      MonthLabelsReadBack(today, r.value);
    }
  }

  /** Twelve points that fit the twelve steps give labels that split back out. */
  lemma MonthLabelsReadBack(today: Date, points: seq<MonthPoint>)
    requires IsToday(today) && |points| == 12
    requires forall i :: 0 <= i < 12 ==> MonthPointFits(points[i], today, i)
    ensures SplitCommas(Join(MonthLabels(points))) == MonthLabels(points)
  {
    forall i | 0 <= i < 12 ensures CommaFree(Quoted(points[i].monthLabel)) {
      MonthLabelCommaFree(TrailingMonth(today, i).0, TrailingMonth(today, i).1);
    }
    SplitJoin(MonthLabels(points));
  }

  /** A successful getYearsSince2020 body lists the quoted years 2022 .. the
      current year, which a reader splits back out of the "years" array. */
  lemma YearsSince2020Labels(env: Env, w: World, today: Date)
    requires today.year >= FirstSeriesYear
    ensures var r := YearSeries(env, w, today, YearCount(today)).0;
      r.Ok? ==>
        && |YearLabels(r.value)| == today.year - 2021
        && SplitCommas(Join(YearLabels(r.value))) == YearLabels(r.value)
        && forall i :: 0 <= i < |r.value| ==> YearLabels(r.value)[i] == Quoted(Digits(2022 + i))
  {
    var r := YearSeries(env, w, today, YearCount(today)).0;
    YearSeriesShape(env, w, today, YearCount(today));
    if r.Ok? {
      assert |r.value| == today.year - 2021;
      YearLabelsReadBack(r.value);
    }
  }

  /** Points that fit positions 0, 1, ... carry the quoted years from 2022,
      which split back out. */
  lemma YearLabelsReadBack(points: seq<YearPoint>)
    requires |points| >= 1
    requires forall i :: 0 <= i < |points| ==> YearPointFits(points[i], i)
    ensures |YearLabels(points)| == |points|
    ensures SplitCommas(Join(YearLabels(points))) == YearLabels(points)
    ensures forall i :: 0 <= i < |points| ==> YearLabels(points)[i] == Quoted(Digits(2022 + i))
  {
    forall i | 0 <= i < |points| ensures CommaFree(Quoted(points[i].yearLabel)) {
      DigitsCommaFree(points[i].yearLabel);
      QuotedCommaFree(points[i].yearLabel);
    }
    SplitJoin(YearLabels(points));
  }

  /** The isCurrentMonth array of a successful getLast12Months body splits
      back into twelve flags: "true" for the last month, the current one,
      and "false" for the eleven before it. */
  lemma Last12MonthsFlags(env: Env, w: World, today: Date)
    requires IsToday(today)
    ensures var r := MonthSeries(env, w, today, 12).0;
      r.Ok? ==>
        && |MonthFlags(r.value)| == 12
        && SplitCommas(Join(MonthFlags(r.value))) == MonthFlags(r.value)
        && MonthFlags(r.value)[11] == "true"
        && forall i :: 0 <= i < 11 ==> MonthFlags(r.value)[i] == "false"
  {
    MonthSeriesShape(env, w, today, 12);
    var r := MonthSeries(env, w, today, 12).0;
    if r.Ok? {
      forall i | 0 <= i < 12 ensures r.value[i].isCurrent <==> i == 11 {
        assert MonthPointFits(r.value[i], today, i);
      }
      MonthFlagsReadBack(r.value);
    }
  }

  /** Twelve points flagged current exactly at the last one give the flags
      "false" eleven times, then "true", and the flags split back out. */
  lemma MonthFlagsReadBack(points: seq<MonthPoint>)
    requires |points| == 12
    requires forall i :: 0 <= i < 12 ==> (points[i].isCurrent <==> i == 11)
    ensures SplitCommas(Join(MonthFlags(points))) == MonthFlags(points)
    ensures MonthFlags(points)[11] == "true"
    ensures forall i :: 0 <= i < 11 ==> MonthFlags(points)[i] == "false"
  {
    var render := (p: MonthPoint) => BoolText(p.isCurrent);
    forall i | 0 <= i < 12 ensures CommaFree(render(points[i])) {
      assert CommaFree("true") && CommaFree("false");
    }
    ItemsReadBack(points, render);
  }

  /** The numeric arrays of a successful getLast12Months body, for a number
      format that writes no comma: each splits back into one item per month,
      and the i-th capacity factor is the i-th yield over the theoretical
      maximum of 24 hours times that month's days. */
  lemma Last12MonthsNumbers(env: Env, w: World, today: Date, show: real -> string)
    requires IsToday(today)
    requires forall x :: CommaFree(show(x))
    ensures var r := MonthSeries(env, w, today, 12).0;
      r.Ok? ==>
        && |MonthYields(r.value, show)| == 12
        && SplitCommas(Join(MonthYields(r.value, show))) == MonthYields(r.value, show)
        && SplitCommas(Join(MonthFactors(r.value, show))) == MonthFactors(r.value, show)
        && SplitCommas(Join(MonthChanges(r.value, show))) == MonthChanges(r.value, show)
        && forall i :: 0 <= i < 12 ==>
             && MonthYields(r.value, show)[i] == show(r.value[i].energyYield)
             && MonthFactors(r.value, show)[i]
                == show(CapacityFactor(r.value[i].energyYield, MonthDayHours(today, i)))
  {
    MonthSeriesShape(env, w, today, 12);
    var r := MonthSeries(env, w, today, 12).0;
    if r.Ok? {
      MonthNumbersReadBack(today, r.value, show);
    }
  }

  /** 24 hours times the days of the month visited at step i. */
  function MonthDayHours(today: Date, i: nat): real
    requires IsToday(today)
  {
    var (y, m) := TrailingMonth(today, i);
    (DaysInMonth(y, m) * 24) as real
  }

  lemma MonthNumbersReadBack(today: Date, points: seq<MonthPoint>, show: real -> string)
    requires IsToday(today) && |points| == 12
    requires forall i :: 0 <= i < 12 ==> MonthPointFits(points[i], today, i)
    requires forall x :: CommaFree(show(x))
    ensures SplitCommas(Join(MonthYields(points, show))) == MonthYields(points, show)
    ensures SplitCommas(Join(MonthFactors(points, show))) == MonthFactors(points, show)
    ensures SplitCommas(Join(MonthChanges(points, show))) == MonthChanges(points, show)
    ensures forall i :: 0 <= i < 12 ==>
      MonthFactors(points, show)[i] == show(CapacityFactor(points[i].energyYield, MonthDayHours(today, i)))
  {
    ItemsReadBack(points, (p: MonthPoint) => show(p.energyYield));
    ItemsReadBack(points, (p: MonthPoint) => show(p.capacityFactor));
    ItemsReadBack(points, (p: MonthPoint) => show(p.yoyChange));
  }

  /** The numeric arrays of a successful getYearsSince2020 body, for a
      number format that writes no comma: each splits back into one item
      per year from 2022, and the i-th capacity factor is the i-th yield,
      in MWh, over the theoretical maximum of 8784 hours in a leap year and
      8760 otherwise. */
  lemma YearsSince2020Numbers(env: Env, w: World, today: Date, show: real -> string)
    requires today.year >= FirstSeriesYear
    requires forall x :: CommaFree(show(x))
    ensures var r := YearSeries(env, w, today, YearCount(today)).0;
      r.Ok? ==>
        && |YearYields(r.value, show)| == today.year - 2021
        && SplitCommas(Join(YearYields(r.value, show))) == YearYields(r.value, show)
        && SplitCommas(Join(YearFactors(r.value, show))) == YearFactors(r.value, show)
        && SplitCommas(Join(YearChanges(r.value, show))) == YearChanges(r.value, show)
        && forall i :: 0 <= i < |r.value| ==>
             && YearYields(r.value, show)[i] == show(r.value[i].energyYield)
             && YearFactors(r.value, show)[i]
                == show(CapacityFactor(r.value[i].energyYield * 1000.0, if IsLeap(2022 + i) then 8784.0 else 8760.0))
  {
    var r := YearSeries(env, w, today, YearCount(today)).0;
    YearSeriesShape(env, w, today, YearCount(today));
    if r.Ok? {
      assert |r.value| == today.year - 2021;
      YearNumbersReadBack(r.value, show);
    }
  }

  lemma YearNumbersReadBack(points: seq<YearPoint>, show: real -> string)
    requires |points| >= 1
    requires forall i :: 0 <= i < |points| ==> YearPointFits(points[i], i)
    requires forall x :: CommaFree(show(x))
    ensures SplitCommas(Join(YearYields(points, show))) == YearYields(points, show)
    ensures SplitCommas(Join(YearFactors(points, show))) == YearFactors(points, show)
    ensures SplitCommas(Join(YearChanges(points, show))) == YearChanges(points, show)
    ensures forall i :: 0 <= i < |points| ==>
      YearFactors(points, show)[i]
      == show(CapacityFactor(points[i].energyYield * 1000.0, if IsLeap(2022 + i) then 8784.0 else 8760.0))
  {
    ItemsReadBack(points, (p: YearPoint) => show(p.energyYield));
    ItemsReadBack(points, (p: YearPoint) => show(p.capacityFactor));
    ItemsReadBack(points, (p: YearPoint) => show(p.yoyChange));
  }
}
