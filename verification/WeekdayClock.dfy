/** Elapsed time that only runs from Monday to Friday; instants are microseconds, with 0 a Monday midnight. */
module WeekdayClock {
  const DAY: int := 86_400_000_000
  const WEEK: int := 7 * 86_400_000_000

  function Weekday(t: int): int {
    t / DAY % 7
  }

  /** The reference: the number of weekday microseconds in [start, end). */
  function Measure(start: int, end: int): nat
    decreases end - start
  {
    if end <= start then 0 else Measure(start, end - 1) + if Weekday(end - 1) < 5 then 1 else 0
  }

  lemma {:induction false} MeasureSplits(a: int, b: int, c: int)
    requires a <= b <= c
    ensures Measure(a, c) == Measure(a, b) + Measure(b, c)
    decreases c - b
  {
    if b < c {
      MeasureSplits(a, b, c - 1);
    }
  }

  /** Within one day everything counts or nothing does. */
  lemma {:induction false} MeasureInDay(day: int, start: int, end: int)
    requires day * DAY <= start <= end <= (day + 1) * DAY
    ensures Measure(start, end) == if day % 7 < 5 then end - start else 0
    decreases end - start
  {
    if start < end {
      MeasureInDay(day, start, end - 1);
      SameDay(day, end - 1);
    }
  }

  lemma SameDay(day: int, t: int)
    requires day * DAY <= t < (day + 1) * DAY
    ensures t / DAY == day
  {
  }

  /** `_weekday_elapsed`: midnight by midnight, it measures the weekday time exactly. */
  method WeekdayElapsed(start: int, end: int) returns (elapsed: nat)
    ensures elapsed == Measure(start, end)
  {
    NothingMeasured(start, end);
    elapsed := 0;
    var cursor := start;
    while cursor < end
      invariant start <= cursor && (cursor <= end || cursor == start)
      invariant elapsed == Measure(start, cursor)
      decreases end - cursor
    {
      hide Measure;
      var nextMidnight := (cursor + DAY) - (cursor + DAY) % DAY;
      var boundary := if nextMidnight < end then nextMidnight else end;
      Midnight(cursor);
      MeasureInDay(cursor / DAY, cursor, boundary);
      MeasureSplits(start, cursor, boundary);
      if Weekday(cursor) < 5 {
        elapsed := elapsed + (boundary - cursor);
      }
      cursor := boundary;
    }
  }

  lemma NothingMeasured(start: int, end: int)
    ensures end <= start ==> Measure(start, end) == 0
    ensures Measure(start, start) == 0
  {
  }

  lemma Midnight(t: int)
    ensures var m := (t + DAY) - (t + DAY) % DAY;
            t < m == (t / DAY + 1) * DAY && t / DAY * DAY <= t
  {
  }

  lemma {:induction false} MeasureBounds(start: int, end: int)
    requires start <= end
    ensures Measure(start, end) <= end - start
    decreases end - start
  {
    if start < end { MeasureBounds(start, end - 1); }
  }

  /** Weekday time from the epoch's Monday, in closed form. */
  function Clock(t: int): int {
    t / WEEK * (5 * DAY) + if t % WEEK < 5 * DAY then t % WEEK else 5 * DAY
  }

  lemma {:induction false} MeasureIsClock(start: int, end: int)
    requires start <= end
    ensures Measure(start, end) == Clock(end) - Clock(start)
    decreases end - start
  {
    if start < end {
      MeasureIsClock(start, end - 1);
      ClockTicks(end - 1);
    }
  }

  lemma ClockTicks(t: int)
    ensures Clock(t + 1) == Clock(t) + if Weekday(t) < 5 then 1 else 0
  {
    var w, r := t / WEEK, t % WEEK;
    assert t == w * WEEK + r;
    DayOfWeek(t);
    NextInWeek(t);
  }

  lemma DayOfWeek(t: int)
    ensures Weekday(t) == t % WEEK / DAY
  {
    var w, r := t / WEEK, t % WEEK;
    assert t == (7 * w) * DAY + r;
    assert t / DAY == 7 * w + r / DAY;
  }

  lemma NextInWeek(t: int)
    ensures if t % WEEK == WEEK - 1 then (t + 1) % WEEK == 0 && (t + 1) / WEEK == t / WEEK + 1
            else (t + 1) % WEEK == t % WEEK + 1 && (t + 1) / WEEK == t / WEEK
  {
  }

  /** Any whole number of weeks holds five days each, wherever it starts. */
  lemma WholeWeeks(start: int, weeks: nat)
    ensures Measure(start, start + weeks * WEEK) == weeks * (5 * DAY)
  {
    MeasureIsClock(start, start + weeks * WEEK);
    assert (start + weeks * WEEK) / WEEK == start / WEEK + weeks && (start + weeks * WEEK) % WEEK == start % WEEK by {
      WeeksOn(start, weeks);
    }
  }

  lemma WeeksOn(start: int, weeks: nat)
    ensures (start + weeks * WEEK) / WEEK == start / WEEK + weeks && (start + weeks * WEEK) % WEEK == start % WEEK
  {
    var w, r := start / WEEK, start % WEEK;
    assert start + weeks * WEEK == (w + weeks) * WEEK + r;
  }
}
