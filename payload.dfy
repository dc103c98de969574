/** Response and stored bodies, abstracted from their JSON text, and the two
    readings the dashboard makes of them: the sum of every record's
    energyYield, and the energyYield of the first record. */
module Payload {
  import opened Wrappers
  import opened Keys

  /** One element of a body's "data" array: a daily record from upstream
      (its date, energyYield in kWh) or a stored aggregate (its month or
      year, energyYield in MWh). The other daily fields play no part here. */
  datatype Entry = Entry(period: string, energyYield: real)

  /** A body: JSON with a "data" array, JSON without one (an upstream error
      object, say), the empty text, or text that is not JSON at all. */
  datatype Body = Doc(data: seq<Entry>) | NoData | Blank | Unparsable

  /** The failures the aggregators propagate: the store cannot be opened,
      the upstream call fails, a body does not parse. */
  datatype Failure = StoreUnavailable | Transport | Malformed

  type Outcome<T> = Result<T, Failure>

  /** Sum of energyYield over the records, accumulated in order. */
  function SumYield(entries: seq<Entry>): real
    decreases |entries|
  {
    if entries == [] then 0.0
    else SumYield(entries[..|entries| - 1]) + entries[|entries| - 1].energyYield
  }

  predicate NonNegativeYields(entries: seq<Entry>) {
    forall i :: 0 <= i < |entries| ==> entries[i].energyYield >= 0.0
  }

  lemma {:induction false} SumYieldNonNegative(entries: seq<Entry>)
    requires NonNegativeYields(entries)
    ensures SumYield(entries) >= 0.0
    decreases |entries|
  {
    if entries != [] {
      SumYieldNonNegative(entries[..|entries| - 1]);
    }
  }

  lemma {:induction false} SumYieldAppend(a: seq<Entry>, b: seq<Entry>)
    ensures SumYield(a + b) == SumYield(a) + SumYield(b)
    decreases |b|
  {
    if b == [] {
      assert a + b == a;
    } else {
      assert (a + b)[..|a + b| - 1] == a + b[..|b| - 1];
      SumYieldAppend(a, b[..|b| - 1]);
    }
  }

  /** Parse a body and total its records' energyYield (main.go:483-493): a
      body without a "data" array totals 0, a body that is not JSON fails. */
  function BodyYield(b: Body): (r: Outcome<real>)
    ensures r.Err? <==> b.Blank? || b.Unparsable?
    ensures b.Doc? ==> r == Ok(SumYield(b.data))
    ensures b.NoData? ==> r == Ok(0.0)
  {
    match b
    case Doc(data) => Ok(SumYield(data))
    case NoData => Ok(0.0)
    case _ => Err(Malformed)
  }

  /** The reading v.GetFloat64("data", "0", "energyYield") of a stored body:
      the first record's energyYield, 0 when there is none, failure when the
      body is not JSON. */
  function FirstYield(b: Body): (r: Outcome<real>)
    ensures r.Err? <==> b.Blank? || b.Unparsable?
    ensures b.Doc? && |b.data| > 0 ==> r == Ok(b.data[0].energyYield)
    ensures (b.Doc? && b.data == []) || b.NoData? ==> r == Ok(0.0)
  {
    match b
    case Doc(data) => Ok(if |data| > 0 then data[0].energyYield else 0.0)
    case NoData => Ok(0.0)
    case _ => Err(Malformed)
  }

  /** The body stored for an aggregate: {"data":[{<period>,"energyYield":v}]}.
      Reading it back gives v. */
  function StoredTotal(period: string, mwh: real): (b: Body)
    ensures FirstYield(b) == Ok(mwh)
  {
    Doc([Entry(period, mwh)])
  }

  /** The period of a month aggregate, "YYYYMM". */
  function MonthStamp(y: nat, m: int): string
    requires 1 <= m <= 12
  {
    Padded(y, 4) + Padded(m, 2)
  }

  /** The body stored under a month key. */
  function MonthlyPayload(y: nat, m: int, mwh: real): Body
    requires 1 <= m <= 12
  {
    StoredTotal(MonthStamp(y, m), mwh)
  }

  /** The body stored under a year key, its period "YYYY". */
  function YearlyPayload(y: nat, mwh: real): Body {
    StoredTotal(Padded(y, 4), mwh)
  }
}
