/** Financing days and cost scenarios of a closed paper trade. Instants are seconds on the New York wall clock, with
    day 0 a Monday. */
module Costs {
  import Rounding

  const DAY: int := 86400
  const ROLLOVER: int := 61200  // 17:00

  function Date(t: int): int {
    t / DAY
  }

  function RolloverAt(day: int): int {
    day * DAY + ROLLOVER
  }

  /** Financing days charged at a day's rollover: Wednesday also carries the weekend. */
  function Weight(day: int): nat {
    var weekday := day % 7;
    if weekday >= 5 then 0 else if weekday == 2 then 3 else 1
  }

  function Charged(start: int, end: int, day: int): nat {
    if start < RolloverAt(day) < end then Weight(day) else 0
  }

  /** The charges of the days from `lo` up to `hi`. */
  function Charges(start: int, end: int, lo: int, hi: int): nat
    decreases hi - lo
  {
    if hi <= lo then 0 else Charges(start, end, lo, hi - 1) + Charged(start, end, hi - 1)
  }

  function FinancingDays(start: int, end: int): nat {
    if start >= end then 0 else Charges(start, end, Date(start), Date(end) + 1)
  }

  /** `financing_days_between`: the walk over the calendar dates. */
  method FinancingDaysBetween(start: int, end: int) returns (days: nat)
    ensures days == FinancingDays(start, end)
  {
    if start >= end {
      return 0;
    }
    var cursor, finalDate := Date(start), Date(end);
    days := 0;
    while cursor <= finalDate
      invariant Date(start) <= cursor <= finalDate + 1
      invariant days == Charges(start, end, Date(start), cursor)
    {
      if start < RolloverAt(cursor) < end && cursor % 7 < 5 {
        days := days + if cursor % 7 == 2 then 3 else 1;
      }
      cursor := cursor + 1;
    }
  }

  // ---------- what is counted ----------

  /** Charges of all days before `day`, counted from day 0. */
  function Before(day: int): int {
    7 * (day / 7) + (match day % 7 case 0 => 0 case 1 => 1 case 2 => 2 case 3 => 5 case 4 => 6 case _ => 7)
  }

  /** The first day whose rollover is later than `t`. */
  function FirstAfter(t: int): int {
    (t - ROLLOVER) / DAY + 1
  }

  /** The first day whose rollover is not earlier than `t`. */
  function FirstFrom(t: int): int {
    FirstAfter(t - 1)
  }

  lemma BeforeStep(day: int)
    ensures Before(day + 1) == Before(day) + Weight(day)
  {
  }

  lemma {:induction false} BeforeMonotone(a: int, b: int)
    requires a <= b
    ensures Before(a) <= Before(b)
    decreases b - a
  {
    if a < b {
      BeforeMonotone(a, b - 1);
      BeforeStep(b - 1);
    }
  }

  lemma FirstAfterIs(t: int, day: int)
    ensures t < RolloverAt(day) <==> FirstAfter(t) <= day
  {
    var q, r := (t - ROLLOVER) / DAY, (t - ROLLOVER) % DAY;
    assert t - ROLLOVER == q * DAY + r;
  }

  lemma FirstFromIs(t: int, day: int)
    ensures t <= RolloverAt(day) <==> FirstFrom(t) <= day
  {
    FirstAfterIs(t - 1, day);
  }

  lemma {:induction false} ChargesAre(start: int, end: int, lo: int, hi: int)
    requires start < end && lo <= FirstAfter(start) && lo <= hi
    ensures FirstAfter(start) <= FirstFrom(end)
    ensures Charges(start, end, lo, hi) ==
              if hi <= FirstAfter(start) then 0
              else Before(if hi <= FirstFrom(end) then hi else FirstFrom(end)) - Before(FirstAfter(start))
    decreases hi - lo
  {
    hide Before, Weight, FirstAfter, FirstFrom;
    FirstOrder(start, end);
    if lo < hi {
      ChargesAre(start, end, lo, hi - 1);
      FirstAfterIs(start, hi - 1);
      FirstFromIs(end, hi - 1);
      BeforeStep(hi - 1);
    }
  }

  lemma FirstOrder(start: int, end: int)
    requires start < end
    ensures FirstAfter(start) <= FirstFrom(end)
  {
  }

  /** The walk counts exactly the weighted rollovers strictly inside the interval: the difference of two running
      totals, whatever range of dates it visits. */
  lemma FinancingIsDifference(start: int, end: int)
    requires start < end
    ensures FinancingDays(start, end) == Before(FirstFrom(end)) - Before(FirstAfter(start))
    ensures FirstAfter(start) <= FirstFrom(end)
  {
    hide Before;
    DateBounds(start, end);
    ChargesAre(start, end, Date(start), Date(end) + 1);
  }

  lemma DateBounds(start: int, end: int)
    requires start < end
    ensures Date(start) <= FirstAfter(start) && FirstFrom(end) <= Date(end) + 1 && Date(start) <= Date(end)
  {
  }

  /** A longer holding never costs fewer days. */
  lemma FinancingMonotone(start: int, end: int, earlier: int, later: int)
    requires earlier <= start && end <= later
    ensures FinancingDays(start, end) <= FinancingDays(earlier, later)
  {
    hide Before;
    if start < end {
      FinancingIsDifference(start, end);
      FinancingIsDifference(earlier, later);
      FirstMonotone(start, end, earlier, later);
      BeforeMonotone(FirstFrom(end), FirstFrom(later));
      BeforeMonotone(FirstAfter(earlier), FirstAfter(start));
    }
  }

  lemma FirstMonotone(start: int, end: int, earlier: int, later: int)
    requires earlier <= start && end <= later
    ensures FirstFrom(end) <= FirstFrom(later) && FirstAfter(earlier) <= FirstAfter(start)
  {
  }

  /** Splitting a holding loses exactly a rollover at the split point, which lies strictly inside neither part. */
  lemma FinancingSplits(start: int, split: int, end: int)
    requires start < split < end
    ensures FinancingDays(start, end) ==
              FinancingDays(start, split) + FinancingDays(split, end)
              + if split == RolloverAt(Date(split)) then Weight(Date(split)) else 0
  {
    hide Before, Weight;
    FinancingIsDifference(start, end);
    FinancingIsDifference(start, split);
    FinancingIsDifference(split, end);
    AtSplit(split);
    BeforeStep(Date(split));
  }

  lemma AtSplit(split: int)
    ensures FirstAfter(split) == if split == RolloverAt(Date(split)) then FirstFrom(split) + 1 else FirstFrom(split)
    ensures split == RolloverAt(Date(split)) ==> FirstFrom(split) == Date(split)
  {
  }

  /** Any number of whole weeks between non-rollover instants costs seven days each; from rollover to rollover the
      one at the end points is missing. */
  lemma WholeWeeks(start: int, weeks: nat)
    requires weeks > 0
    ensures FinancingDays(start, start + weeks * 7 * DAY) ==
              7 * weeks - if start == RolloverAt(Date(start)) then Weight(Date(start)) else 0
  {
    hide Before, Weight;
    FinancingIsDifference(start, start + weeks * 7 * DAY);
    WeeksLater(start, weeks);
    AtSplit(start);
    BeforeWeeks(FirstFrom(start), weeks);
    BeforeStep(Date(start));
  }

  lemma WeeksLater(start: int, weeks: nat)
    ensures FirstFrom(start + weeks * 7 * DAY) == FirstFrom(start) + 7 * weeks
  {
    var q, r := (start - 1 - ROLLOVER) / DAY, (start - 1 - ROLLOVER) % DAY;
    assert start - 1 - ROLLOVER == q * DAY + r;
    assert start + weeks * 7 * DAY - 1 - ROLLOVER == (q + 7 * weeks) * DAY + r;
  }

  lemma BeforeWeeks(day: int, weeks: nat)
    ensures Before(day + 7 * weeks) == Before(day) + 7 * weeks
  {
  }

  // ---------- the range of one result ----------

  /** `financing_day_range`: the entry may be anywhere in its hour unless filled at the open, the exit anywhere in its
      hour unless at the session close. */
  function DayRange(entryStart: int, entryAtOpen: bool, expired: bool, exitStart: int): (int, int) {
    var entryEnd := if entryAtOpen then entryStart else entryStart + 3600;
    var exitEnd := if expired then exitStart else exitStart + 3600;
    (FinancingDays(entryEnd, exitStart), FinancingDays(entryStart, exitEnd))
  }

  /** The range brackets every holding the hourly candles allow. */
  lemma RangeBrackets(entryStart: int, entryAtOpen: bool, expired: bool, exitStart: int, entered: int, left: int)
    requires entryStart <= entered <= entryStart + (if entryAtOpen then 0 else 3600)
    requires exitStart <= left <= exitStart + (if expired then 0 else 3600)
    ensures var (lowest, highest) := DayRange(entryStart, entryAtOpen, expired, exitStart);
            0 <= lowest <= FinancingDays(entered, left) <= highest
  {
    var entryEnd := if entryAtOpen then entryStart else entryStart + 3600;
    var exitEnd := if expired then exitStart else exitStart + 3600;
    FinancingMonotone(entryEnd, exitStart, entered, left);
    FinancingMonotone(entered, left, entryStart, exitEnd);
  }

  // ---------- the scenarios ----------

  /** Annual rate in percent and commission in thousandths of a pip. */
  datatype Scenario = Scenario(percent: nat, commission: nat, worstDays: bool)

  const OPTIMISTIC := Scenario(0, 0, false)
  const BASE := Scenario(3, 500, false)
  const CONSERVATIVE := Scenario(6, 1000, true)

  /** Net result in thousandths of a pip. The fill is in millionths, so a year's financing at one percent is
      `fill / 10` thousandths of a pip. */
  function NetPips(gross: int, fill: int, days: int, s: Scenario): int {
    Rounding.HalfEven((gross - s.commission) * 3650 - fill * s.percent * days, 3650)
  }

  /** Net R in ten-thousandths, from the rounded pips; `risk` is the stop distance in millionths. */
  function NetR(netPips: int, risk: int): int
    requires risk > 0
  {
    Rounding.HalfEven(netPips * 1000, risk)
  }

  datatype Assessment = Assessment(minimumDays: int, maximumDays: int, pips: seq<int>, r: seq<int>)

  /** The arithmetic of `create_cost_assessment`, scenarios in their declared order. */
  method Assess(gross: int, fill: int, risk: int, range: (int, int)) returns (a: Assessment)
    requires risk > 0
    ensures a.minimumDays == range.0 && a.maximumDays == range.1
    ensures |a.pips| == |a.r| == 3
    ensures a.pips[0] == NetPips(gross, fill, range.0, OPTIMISTIC) && a.r[0] == NetR(a.pips[0], risk)
    ensures a.pips[1] == NetPips(gross, fill, range.0, BASE) && a.r[1] == NetR(a.pips[1], risk)
    ensures a.pips[2] == NetPips(gross, fill, range.1, CONSERVATIVE) && a.r[2] == NetR(a.pips[2], risk)
    ensures 0 <= range.0 <= range.1 && fill >= 0 ==> RowAccepted(a)
  {
    hide NetPips, NetR;
    var scenarios := [OPTIMISTIC, BASE, CONSERVATIVE];
    var pips, r := [], [];
    for k := 0 to 3
      invariant |pips| == |r| == k
      invariant forall j :: 0 <= j < k ==>
        pips[j] == NetPips(gross, fill, if scenarios[j].worstDays then range.1 else range.0, scenarios[j])
            && r[j] == NetR(pips[j], risk)
    {
      var s := scenarios[k];
      var net := NetPips(gross, fill, if s.worstDays then range.1 else range.0, s);
      pips, r := pips + [net], r + [NetR(net, risk)];
    }
    a := Assessment(range.0, range.1, pips, r);
    if 0 <= range.0 <= range.1 && fill >= 0 {
      ScenariosOrdered(gross, fill, risk, range.0, range.1);
    }
  }

  /** The row's check constraints. */
  predicate RowAccepted(a: Assessment) {
    && a.minimumDays <= a.maximumDays
    && |a.pips| == 3 && |a.r| == 3
    && a.pips[0] >= a.pips[1] >= a.pips[2]
    && a.r[0] >= a.r[1] >= a.r[2]
  }

  /** Rounding twice cannot reorder the scenarios, in pips or in R. */
  lemma ScenariosOrdered(gross: int, fill: int, risk: int, lowest: int, highest: int)
    requires risk > 0 && fill >= 0 && 0 <= lowest <= highest
    ensures var o, b, c := NetPips(gross, fill, lowest, OPTIMISTIC), NetPips(gross, fill, lowest, BASE),
                           NetPips(gross, fill, highest, CONSERVATIVE);
            o >= b >= c && NetR(o, risk) >= NetR(b, risk) >= NetR(c, risk)
  {
    NetPipsOrdered(gross, fill, lowest, OPTIMISTIC, lowest, BASE);
    NetPipsOrdered(gross, fill, lowest, BASE, highest, CONSERVATIVE);
    NetROrdered(NetPips(gross, fill, lowest, BASE), NetPips(gross, fill, lowest, OPTIMISTIC), risk);
    NetROrdered(NetPips(gross, fill, highest, CONSERVATIVE), NetPips(gross, fill, lowest, BASE), risk);
  }

  lemma NetPipsOrdered(gross: int, fill: int, days: int, s: Scenario, moreDays: int, t: Scenario)
    requires fill >= 0 && 0 <= days <= moreDays && s.percent <= t.percent && s.commission <= t.commission
    ensures NetPips(gross, fill, days, s) >= NetPips(gross, fill, moreDays, t)
  {
    CostOrdered(fill, s.percent, days, t.percent, moreDays);
    var n := (gross - s.commission) * 3650 - fill * s.percent * days;
    var m := (gross - t.commission) * 3650 - fill * t.percent * moreDays;
    assert m <= n;
    Rounding.HalfEvenMonotone(m, 3650, n, 3650);
  }

  lemma CostOrdered(fill: nat, percent: nat, days: nat, more: nat, moreDays: nat)
    requires percent <= more && days <= moreDays
    ensures fill * percent * days <= fill * more * moreDays
  {
    Rounding.Scale(percent, more, fill);
    assert percent * fill == fill * percent && more * fill == fill * more;
    assert 0 <= fill * percent;
    Rounding.Scale(fill * percent, fill * more, days);
    Rounding.Scale(days, moreDays, fill * more);
    assert days * (fill * more) == fill * more * days && moreDays * (fill * more) == fill * more * moreDays;
  }

  lemma NetROrdered(less: int, more: int, risk: int)
    requires risk > 0 && less <= more
    ensures NetR(less, risk) <= NetR(more, risk)
  {
    Rounding.Scale(less * 1000, more * 1000, risk);
    Rounding.HalfEvenMonotone(less * 1000, risk, more * 1000, risk);
  }
}
