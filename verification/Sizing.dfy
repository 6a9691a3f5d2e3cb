/** Position sizing under the setup risk cap. Prices are in millionths, the CAD rate in hundred-millionths, so one
    unit's risk is an integer number of 10^-14 CAD. */
module Sizing {
  import Rounding

  const CAP_CENTS: int := 12500
  const PER_CENT: int := 1_000_000_000_000  // 10^-14 CAD in a cent
  const CAP: int := 12500 * 1_000_000_000_000

  datatype Refusal = NoStopDistance | NoConversionRate | CapCannotFundOneUnit
  datatype Size = Sized(stopDistance: nat, units: int, riskCents: int) | Refused(why: Refusal)

  function Min(a: int, b: int): int {
    if b < a then b else a
  }

  /** `calculate_size` */
  function CalculateSize(entry: int, stop: int, rate: int): Size {
    var distance := Rounding.Abs(entry - stop);
    if distance <= 0 then Refused(NoStopDistance)
    else if rate <= 0 then Refused(NoConversionRate)
    else
      var unitRisk := distance * rate;
      assert unitRisk > 0 by { Positive(distance, rate); }
      var units := CAP / unitRisk;
      if units < 1 then Refused(CapCannotFundOneUnit)
      else Sized(distance, units, Min(Rounding.HalfUp(units * unitRisk, PER_CENT), CAP_CENTS))
  }

  lemma Positive(a: int, b: int)
    requires a > 0 && b > 0
    ensures a * b > 0
  {
  }

  /** Sizing succeeds exactly when one unit is affordable; it then takes as many units as the cap allows, which put
      more than half of it at risk, and the closing `min` changes nothing. */
  lemma SizeIsGreatest(entry: int, stop: int, rate: int)
    ensures var distance := Rounding.Abs(entry - stop);
            var size := CalculateSize(entry, stop, rate);
            && (size.Sized? <==> entry != stop && rate > 0 && distance * rate <= CAP)
            && (size.Sized? ==>
                  && (forall n: int :: n * (distance * rate) <= CAP <==> n <= size.units)
                  && CAP < 2 * (size.units * (distance * rate))
                  && size.riskCents == Rounding.HalfUp(size.units * (distance * rate), PER_CENT)
                  && CAP_CENTS / 2 <= size.riskCents <= CAP_CENTS)
  {
    var distance := Rounding.Abs(entry - stop);
    if distance > 0 && rate > 0 {
      Positive(distance, rate);
      var unit := distance * rate;
      FloorIsGreatest(CAP, unit);
      var units := CAP / unit;
      if units >= 1 {
        MoreThanHalf(CAP, unit, units);
        Rounding.HalfUpBound(units * unit, PER_CENT, CAP_CENTS);
        Rounding.HalfUpBound(units * unit, PER_CENT, CAP_CENTS / 2);
      }
      forall n: int
        ensures n * unit <= CAP <==> n <= units
      {
        FloorMeans(CAP, unit, n);
      }
    }
  }

  lemma FloorIsGreatest(cap: int, unit: int)
    requires unit > 0 && cap > 0
    ensures cap / unit * unit <= cap < (cap / unit + 1) * unit
    ensures cap / unit >= 1 <==> unit <= cap
  {
    assert cap == cap / unit * unit + cap % unit;
    FloorMeans(cap, unit, 1);
  }

  lemma FloorMeans(cap: int, unit: int, n: int)
    requires unit > 0
    ensures n * unit <= cap <==> n <= cap / unit
  {
    var q, r := cap / unit, cap % unit;
    assert cap == q * unit + r;
    if n <= q {
      Rounding.Scale(n, q, unit);
    } else {
      Rounding.Scale(q + 1, n, unit);
      assert (q + 1) * unit == q * unit + unit;
    }
  }

  lemma MoreThanHalf(cap: int, unit: int, units: int)
    requires unit > 0 && units >= 1 && cap < (units + 1) * unit
    ensures cap < 2 * (units * unit)
  {
    Rounding.Scale(1, units, unit);
    assert (units + 1) * unit == units * unit + unit;
  }

  /** What the stored row's validator recomputes and its constraints demand. */
  predicate RowAccepted(entry: int, stop: int, rate: int, size: Size)
    requires size.Sized?
  {
    && size.stopDistance == Rounding.Abs(entry - stop) > 0 && rate > 0
    && size.units > 0
    && size.riskCents == Rounding.HalfUp(size.units * size.stopDistance * rate, PER_CENT)
    && 0 < size.riskCents <= CAP_CENTS
  }

  /** Every size the calculator returns is accepted by the row it is stored in. */
  lemma SizedRowAccepted(entry: int, stop: int, rate: int)
    ensures CalculateSize(entry, stop, rate).Sized? ==> RowAccepted(entry, stop, rate, CalculateSize(entry, stop, rate))
  {
    var size := CalculateSize(entry, stop, rate);
    if size.Sized? {
      SizeIsGreatest(entry, stop, rate);
      assert size.units * (size.stopDistance * rate) == size.units * size.stopDistance * rate;
    }
  }

  /** A wider stop or a dearer currency never buys more units. */
  lemma SizeAntitone(entry: int, stop: int, rate: int, entry2: int, stop2: int, rate2: int)
    requires Rounding.Abs(entry - stop) <= Rounding.Abs(entry2 - stop2) && 0 < rate <= rate2
    requires CalculateSize(entry2, stop2, rate2).Sized? && entry != stop
    ensures CalculateSize(entry, stop, rate).Sized?
    ensures CalculateSize(entry2, stop2, rate2).units <= CalculateSize(entry, stop, rate).units
  {
    var d, e := Rounding.Abs(entry - stop), Rounding.Abs(entry2 - stop2);
    Rounding.Scale(d, e, rate);
    Rounding.Scale(rate, rate2, e);
    assert e * rate == rate * e && e * rate2 == rate2 * e;
    SizeIsGreatest(entry, stop, rate);
    SizeIsGreatest(entry2, stop2, rate2);
    var n := CalculateSize(entry2, stop2, rate2).units;
    Rounding.Scale(d * rate, e * rate2, n);
    assert n * (d * rate) == (d * rate) * n && n * (e * rate2) == (e * rate2) * n;
    assert n * (e * rate2) <= CAP;
  }
}
