/** The derived metrics of a rollup point: year-over-year change with its
    zero guard, and capacity factor against the 2500 kW nominal power. */
module Rollup {
  import opened Wrappers
  import opened Payload

  /** Nominal power of the turbine, in kW. */
  const NominalPowerKw: real := 2500.0

  /** The most a period of the given length could yield at nominal power, in MWh. */
  function TheoreticalMaxMwh(hours: real): real {
    NominalPowerKw / 1000.0 * hours
  }

  /** Capacity factor in percent: the yield over the theoretical maximum,
      0 when that maximum is not positive. */
  function CapacityFactor(yieldMwh: real, hours: real): real {
    var max := TheoreticalMaxMwh(hours);
    if max > 0.0 then yieldMwh / max * 100.0 else 0.0
  }

  /** Year-over-year change in percent against the prior period's result:
      0 unless the prior call succeeded with a positive value. */
  function YoYChange(current: real, prior: Outcome<real>): real {
    if prior.Ok? && prior.value > 0.0 then (current - prior.value) / prior.value * 100.0
    else 0.0
  }

  /** For a period of positive length the capacity factor is the percentage
      of the theoretical maximum: it scales back to the yield, is 0 exactly
      for a zero yield, non-negative for a non-negative yield, at most 100
      exactly when the yield is at most the maximum, and grows with the yield. */
  lemma CapacityFactorMeaning(yieldMwh: real, hours: real)
    requires hours > 0.0
    ensures CapacityFactor(yieldMwh, hours) * TheoreticalMaxMwh(hours) == yieldMwh * 100.0
    ensures CapacityFactor(yieldMwh, hours) == 0.0 <==> yieldMwh == 0.0
    ensures yieldMwh >= 0.0 ==> CapacityFactor(yieldMwh, hours) >= 0.0
    ensures CapacityFactor(yieldMwh, hours) <= 100.0 <==> yieldMwh <= TheoreticalMaxMwh(hours)
  {
    var max := TheoreticalMaxMwh(hours);
    assert max > 0.0;
    var cf := yieldMwh / max * 100.0;
    assert cf * max == yieldMwh * 100.0;
    PercentOfPositive(yieldMwh, max);
  }

  lemma PercentOfPositive(part: real, whole: real)
    requires whole > 0.0
    ensures part / whole * 100.0 <= 100.0 <==> part <= whole
  {
    var q := part / whole;
    assert q * whole == part;
    assert (1.0 - q) * whole == whole - part;
    if q > 1.0 {
      assert (q - 1.0) * whole > 0.0;
    }
  }

  lemma CapacityFactorMonotone(y1: real, y2: real, hours: real)
    requires hours > 0.0 && y1 <= y2
    ensures CapacityFactor(y1, hours) <= CapacityFactor(y2, hours)
  {
    var max := TheoreticalMaxMwh(hours);
    assert y1 / max <= y2 / max;
  }

  /** The change is 0 when the prior value is missing or not positive;
      otherwise it has the sign of current - prior, and applying it to the
      prior value gives back the current one. */
  lemma YoYChangeMeaning(current: real, prior: Outcome<real>)
    ensures prior.Err? || prior.value <= 0.0 ==> YoYChange(current, prior) == 0.0
    ensures prior.Ok? && prior.value > 0.0 ==>
      && prior.value * (1.0 + YoYChange(current, prior) / 100.0) == current
      && (YoYChange(current, prior) > 0.0 <==> current > prior.value)
      && (YoYChange(current, prior) == 0.0 <==> current == prior.value)
      && (YoYChange(current, prior) < 0.0 <==> current < prior.value)
  {
    if prior.Ok? && prior.value > 0.0 {
      var p := prior.value;
      var c := (current - p) / p * 100.0;
      assert c / 100.0 * p == current - p;
      assert c > 0.0 <==> current - p > 0.0;
      assert c < 0.0 <==> current - p < 0.0;
    }
  }

  /** A leap year of 8784 hours yielding 12000 MWh runs at 12000 / 21960,
      i.e. a capacity factor between 54.64% and 54.65%. */
  lemma LeapYearCapacityExample()
    ensures CapacityFactor(12000.0, 8784.0) == 1200000.0 / 21960.0
    ensures 54.64 < CapacityFactor(12000.0, 8784.0) < 54.65
  {
  }
}
