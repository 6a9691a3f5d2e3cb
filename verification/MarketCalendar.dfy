/** The FX week in New York wall-clock hours. Hour 0 is a Monday midnight, so `h % 168` is the hour of the week.
    The market is closed from Friday 17:00 to Sunday 17:00. */
module MarketCalendar {
  const FRIDAY_CLOSE: int := 113
  const SUNDAY_OPEN: int := 161
  const WEEK: int := 168

  function Weekday(h: int): int {
    h / 24 % 7
  }

  function HourOfDay(h: int): int {
    h % 24
  }

  predicate MarketIsOpen(h: int) {
    || Weekday(h) in {0, 1, 2, 3}
    || (Weekday(h) == 4 && HourOfDay(h) < 17)
    || (Weekday(h) == 6 && HourOfDay(h) >= 17)
  }

  /** `_next_market_hour` of any instant within hour `h`. */
  function NextMarketHour(h: int): int {
    var l := h + 1;
    if Weekday(l) == 4 && HourOfDay(l) >= 17 then (l / 24 + 2) * 24 + 17
    else if Weekday(l) == 5 then (l / 24 + 1) * 24 + 17
    else if Weekday(l) == 6 && HourOfDay(l) < 17 then l / 24 * 24 + 17
    else l
  }

  predicate IsWeekendGap(start: int, end: int) {
    Weekday(start + 1) == 4 && HourOfDay(start + 1) == 17 && Weekday(end) == 6 && HourOfDay(end) == 17
  }

  /** `registered_successor` for hourly candles. */
  function RegisteredSuccessor(h: int): int {
    var l := h + 1;
    if Weekday(l) == 4 && HourOfDay(l) == 17 then l + 48 else l
  }

  lemma WeekHour(h: int)
    ensures Weekday(h) == h % WEEK / 24 && HourOfDay(h) == h % WEEK % 24
    ensures MarketIsOpen(h) <==> h % WEEK < FRIDAY_CLOSE || SUNDAY_OPEN <= h % WEEK
  {
    var w := h / WEEK;
    assert h == w * WEEK + h % WEEK;
    assert h / 24 == w * 7 + h % WEEK / 24;
  }

  /** It is the least open hour after `h`: open, later, and with nothing open in between. */
  lemma NextIsLeastOpen(h: int)
    ensures h < NextMarketHour(h) <= h + 49 && MarketIsOpen(NextMarketHour(h))
    ensures forall k :: h < k < NextMarketHour(h) ==> !MarketIsOpen(k)
  {
    hide MarketIsOpen, NextMarketHour;
    var l := h + 1;
    NextHourInWeek(h);
    WeekHour(l);
    if FRIDAY_CLOSE <= l % WEEK < SUNDAY_OPEN {
      Shift(l, SUNDAY_OPEN - l % WEEK);
      WeekHour(NextMarketHour(h));
      forall k | h < k < NextMarketHour(h)
        ensures !MarketIsOpen(k)
      {
        Shift(l, k - l);
        WeekHour(k);
      }
    }
  }

  /** The next market hour is the following hour, or Sunday 17:00 when that lies in the closure. */
  lemma NextHourInWeek(h: int)
    ensures var w := (h + 1) % WEEK;
            NextMarketHour(h) == if FRIDAY_CLOSE <= w < SUNDAY_OPEN then h + 1 + (SUNDAY_OPEN - w) else h + 1
  {
    var l := h + 1;
    WeekHour(l);
    assert l == l / 24 * 24 + l % 24;
  }

  /** On open hours the coverage test's next hour and the registered calendar's successor are one. */
  lemma SuccessorIsNext(h: int)
    requires MarketIsOpen(h)
    ensures RegisteredSuccessor(h) == NextMarketHour(h)
  {
    hide MarketIsOpen;
    WeekHour(h);
    WeekHour(h + 1);
    NextWeekHour(h);
    var l := h + 1;
    assert l == l / 24 * 24 + l % 24;
  }

  lemma NextWeekHour(h: int)
    ensures (h + 1) % WEEK == if h % WEEK == WEEK - 1 then 0 else h % WEEK + 1
  {
  }

  lemma WeekendGapHours(start: int, end: int)
    ensures IsWeekendGap(start, end) <==> (start + 1) % WEEK == FRIDAY_CLOSE && end % WEEK == SUNDAY_OPEN
  {
    WeekHour(start + 1);
    WeekHour(end);
  }

  // ---------- daily sessions ----------

  predicate OpensDaily(h: int) {
    HourOfDay(h) == 17 && Weekday(h) in {6, 0, 1, 2, 3}
  }

  function DailySuccessor(h: int): int {
    h + (if Weekday(h) == 3 then 72 else 24)
  }

  function DailyCompletion(h: int): int {
    h + 24
  }

  /** `target_endpoint`: the session `horizon` successors after the reference. */
  function TargetEndpoint(reference: int, horizon: nat): int {
    if horizon == 0 then reference else DailySuccessor(TargetEndpoint(reference, horizon - 1))
  }

  /** Python's loop over the horizon, which refuses horizons outside 1..100. */
  method ComputeTargetEndpoint(reference: int, horizon: int) returns (valid: bool, endpoint: int)
    ensures valid <==> 1 <= horizon <= 100
    ensures valid ==> endpoint == TargetEndpoint(reference, horizon)
  {
    endpoint := reference;
    if !(1 <= horizon <= 100) {
      return false, endpoint;
    }
    for k := 0 to horizon
      invariant endpoint == TargetEndpoint(reference, k)
    {
      endpoint := DailySuccessor(endpoint);
    }
    valid := true;
  }

  lemma DailySlots(h: int)
    ensures OpensDaily(h) <==> h % WEEK in {161, 17, 41, 65, 89}
  {
    WeekHour(h);
  }

  lemma Shift(h: int, d: nat)
    requires d <= WEEK
    ensures (h + d) % WEEK == if h % WEEK + d < WEEK then h % WEEK + d else h % WEEK + d - WEEK
  {
  }

  lemma DailyStep(h: int)
    requires OpensDaily(h)
    ensures OpensDaily(DailySuccessor(h))
    ensures DailySuccessor(h) == h + if h % WEEK == 89 then 72 else 24
    ensures DailySuccessor(h) % WEEK == if h % WEEK == 89 then 161 else if h % WEEK == 161 then 17 else h % WEEK + 24
    ensures h % WEEK in {161, 17, 41, 65, 89}
  {
    hide OpensDaily;
    DailySlots(h);
    assert Weekday(h) == 3 <==> h % WEEK == 89 by { WeekHour(h); }
    Shift(h, DailySuccessor(h) - h);
    DailySlots(DailySuccessor(h));
  }

  /** Five sessions are one calendar week, whatever the weekday. */
  lemma FiveSessionsAreAWeek(reference: int)
    requires OpensDaily(reference)
    ensures TargetEndpoint(reference, 5) == reference + WEEK
    ensures OpensDaily(TargetEndpoint(reference, 5))
  {
    hide OpensDaily, DailySuccessor;
    var d1 := DailySuccessor(reference);
    var d2 := DailySuccessor(d1);
    var d3 := DailySuccessor(d2);
    var d4 := DailySuccessor(d3);
    assert TargetEndpoint(reference, 1) == d1;
    assert TargetEndpoint(reference, 2) == d2;
    assert TargetEndpoint(reference, 3) == d3;
    assert TargetEndpoint(reference, 4) == d4;
    DailyStep(reference);
    DailyStep(d1);
    DailyStep(d2);
    DailyStep(d3);
    DailyStep(d4);
  }

  /** Any horizon: every session keeps to the grid, and `n` sessions span at least `n` days. */
  lemma {:induction false} EndpointOnGrid(reference: int, horizon: nat)
    requires OpensDaily(reference)
    ensures OpensDaily(TargetEndpoint(reference, horizon))
    ensures reference + 24 * horizon <= TargetEndpoint(reference, horizon)
  {
    hide OpensDaily, DailySuccessor;
    if horizon > 0 {
      EndpointOnGrid(reference, horizon - 1);
      DailyStep(TargetEndpoint(reference, horizon - 1));
    }
  }
}
