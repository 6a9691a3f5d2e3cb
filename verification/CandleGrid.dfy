/** The grid live candles open on. Instants are seconds on the New York wall clock; hour `h` of the market
    calendar starts at second `3600 * h`. */
module CandleGrid {
  import opened MarketCalendar

  const HOUR: int := 3600

  datatype Granularity = M15 | H1 | H4 | D | W

  function Step(g: Granularity): int {
    match g case M15 => 900 case H1 => HOUR case H4 => 4 * HOUR case D => 24 * HOUR case W => 168 * HOUR
  }

  /** Whether an hour may open a candle. */
  predicate AlignedHour(h: int, g: Granularity) {
    match g
    case H4 => HourOfDay(h) in {1, 5, 9, 13, 17, 21}
    case D => OpensDaily(h)
    case W => HourOfDay(h) == 17 && Weekday(h) == 4
    case _ => true
  }

  /** `live_interval_is_aligned` */
  predicate Aligned(t: int, g: Granularity) {
    if g.M15? then t % 900 == 0 else t % HOUR == 0 && AlignedHour(t / HOUR, g)
  }

  function Completion(t: int, g: Granularity): int {
    t + Step(g)
  }

  // ---------- the grid ----------

  function FloorHour(h: int, g: Granularity): int {
    match g
    case H4 => h - (h - 1) % 4
    case W => h - (h - 113) % 168
    case D =>
      var close := h - (h - 17) % 24;
      if Weekday(close) == 4 then close - 24 else if Weekday(close) == 5 then close - 48 else close
    case _ => h
  }

  function Floor(v: int, g: Granularity): int {
    if g.M15? then v - v % 900 else FloorHour(v / HOUR, g) * HOUR
  }

  lemma AlignedHourInWeek(h: int, g: Granularity)
    ensures g.H4? ==> (AlignedHour(h, g) <==> (h - 1) % 4 == 0)
    ensures g.D? ==> (AlignedHour(h, g) <==> h % WEEK in {161, 17, 41, 65, 89})
    ensures g.W? ==> (AlignedHour(h, g) <==> (h - 113) % 168 == 0)
  {
    WeekHour(h);
    if g.H4? { QuarterDay(h); }
    if g.W? { FridayHour(h); }
  }

  lemma QuarterDay(h: int)
    ensures h % 24 in {1, 5, 9, 13, 17, 21} <==> (h - 1) % 4 == 0
  {
    var d, r := h / 24, h % 24;
    assert h - 1 == 4 * (6 * d) + (r - 1);
  }

  lemma FridayHour(h: int)
    ensures h % 168 == 113 <==> (h - 113) % 168 == 0
  {
  }

  /** Between a multiple and the next there is none. */
  lemma NextMultiple(x: int, y: int, m: int)
    requires m > 0 && x % m == 0 && y % m == 0 && x < y
    ensures x + m <= y
  {
    var p, q := x / m, y / m;
    assert x == p * m && y == q * m;
    if q < p + 1 { MulOrder(q, p, m); } else { MulOrder(p + 1, q, m); }
    assert (p + 1) * m == p * m + m;
  }

  lemma MulOrder(p: int, q: int, m: int)
    requires p <= q && m > 0
    ensures p * m <= q * m
  {
  }

  lemma QuarterFloor(h: int)
    ensures var f := h - (h - 1) % 4; (f - 1) % 4 == 0
  {
  }

  lemma WeekFloor(h: int)
    ensures var f := h - (h - 113) % 168; (f - 113) % 168 == 0
  {
  }

  /** The floor is the last grid point at or before an hour, less than a week back. */
  lemma FloorHourIsLast(h: int, g: Granularity)
    requires !g.M15?
    ensures var f := FloorHour(h, g);
            && AlignedHour(f, g) && h - 168 < f <= h
            && forall k :: f < k <= h ==> !AlignedHour(k, g)
  {
    hide AlignedHour;
    var f := FloorHour(h, g);
    AlignedHourInWeek(f, g);
    if g.H4? {
      QuarterFloor(h);
      forall k | f < k <= h ensures !AlignedHour(k, g) {
        AlignedHourInWeek(k, g);
        if (k - 1) % 4 == 0 { NextMultiple(f - 1, k - 1, 4); }
      }
    } else if g.W? {
      WeekFloor(h);
      forall k | f < k <= h ensures !AlignedHour(k, g) {
        AlignedHourInWeek(k, g);
        if (k - 113) % 168 == 0 { NextMultiple(f - 113, k - 113, 168); }
      }
    } else if g.D? {
      DailyFloor(h);
    } else {
      AnyHour(h, g);
    }
  }

  lemma AnyHour(h: int, g: Granularity)
    requires g.M15? || g.H1?
    ensures AlignedHour(h, g)
  {
  }

  lemma SessionSlots(h: int)
    ensures (h - 17) % 24 == 0 <==> h % WEEK in {17, 41, 65, 89, 113, 137, 161}
  {
    var w, r := h / WEEK, h % WEEK;
    assert h - 17 == 24 * (7 * w) + (r - 17);
    assert (h - 17) % 24 == (r - 17) % 24;
  }

  lemma LastSession(h: int)
    ensures var close := h - (h - 17) % 24; (close - 17) % 24 == 0 && h - 24 < close <= h
  {
  }

  lemma DailyFloor(h: int)
    ensures var f := FloorHour(h, D);
            AlignedHour(f, D) && h - 72 <= f <= h && forall k :: f < k <= h ==> !AlignedHour(k, D)
  {
    hide AlignedHour;
    var close, f := h - (h - 17) % 24, FloorHour(h, D);
    LastSession(h);
    SessionSlots(close);
    WeekHour(close);
    FloorSlots(close, f);
    AlignedHourInWeek(f, D);
    forall k | f < k <= h
      ensures !AlignedHour(k, D)
    {
      AlignedHourInWeek(k, D);
      SessionSlots(k);
      if (k - 17) % 24 == 0 {
        if close < k { NextMultiple(close - 17, k - 17, 24); }
        NextMultiple(f - 17, k - 17, 24);
        if f + 24 < k { NextMultiple(f + 24 - 17, k - 17, 24) by { SessionAfter(f); } }
        WeekendSlots(close, f);
      }
    }
  }

  lemma SessionAfter(f: int)
    requires (f - 17) % 24 == 0
    ensures (f + 24 - 17) % 24 == 0
  {
  }

  /** Where the daily floor of a Friday or Saturday close goes. */
  lemma FloorSlots(close: int, f: int)
    requires close % WEEK in {17, 41, 65, 89, 113, 137, 161}
    requires f == if close % WEEK == 113 then close - 24 else if close % WEEK == 137 then close - 48 else close
    ensures f % WEEK in {161, 17, 41, 65, 89} && (f - 17) % 24 == 0
  {
    if close % WEEK == 113 { Back(close, 24); }
    if close % WEEK == 137 { Back(close, 48); }
    SessionSlots(f);
  }

  lemma Back(close: int, d: nat)
    requires d <= close % WEEK
    ensures (close - d) % WEEK == close % WEEK - d
  {
    var w := close / WEEK;
    assert close - d == w * WEEK + (close % WEEK - d);
  }

  lemma WeekendSlots(close: int, f: int)
    requires close % WEEK in {17, 41, 65, 89, 113, 137, 161}
    requires f == if close % WEEK == 113 then close - 24 else if close % WEEK == 137 then close - 48 else close
    ensures f + 24 <= close ==> (f + 24) % WEEK == 113
    ensures f + 48 <= close ==> (f + 48) % WEEK == 137
    ensures close <= f + 48
  {
    if close % WEEK == 137 { Back(close, 24); }
  }

  /** Two grid points are at least one step apart. */
  lemma GridSpacing(t: int, u: int, g: Granularity)
    requires Aligned(t, g) && Aligned(u, g) && t < u
    ensures Completion(t, g) <= u
  {
    hide AlignedHour, OpensDaily;
    if g.M15? {
      NextMultiple(t, u, 900);
    } else {
      var h, k := t / HOUR, u / HOUR;
      AlignedHourInWeek(h, g);
      AlignedHourInWeek(k, g);
      match g {
        case H4 => NextMultiple(h - 1, k - 1, 4);
        case W => NextMultiple(h - 113, k - 113, 168);
        case D => DailySpacing(h, k);
        case _ =>
      }
    }
  }

  lemma DailySpacing(h: int, k: int)
    requires h % WEEK in {161, 17, 41, 65, 89} && k % WEEK in {161, 17, 41, 65, 89} && h < k
    ensures h + 24 <= k
  {
    if k < h + 24 { Shift(h, k - h); }
  }

  /** The floor of an instant is the last grid point at or before it. */
  lemma FloorIsLast(v: int, g: Granularity)
    ensures var f := Floor(v, g);
            && Aligned(f, g) && v - 168 * HOUR < f <= v
            && forall t :: f < t <= v ==> !Aligned(t, g)
  {
    hide AlignedHour, FloorHour;
    if g.M15? {
      QuarterHour(v);
      forall t | Floor(v, g) < t <= v ensures !Aligned(t, g) {
        if t % 900 == 0 { NextMultiple(Floor(v, g), t, 900); }
      }
    } else {
      FloorHourIsLast(v / HOUR, g);
      forall t | Floor(v, g) < t <= v ensures !Aligned(t, g) {
        if t % HOUR == 0 { assert FloorHour(v / HOUR, g) < t / HOUR <= v / HOUR; }
      }
    }
  }

  lemma QuarterHour(v: int)
    ensures (v - v % 900) % 900 == 0
  {
  }

  /** `canonical_live_start`: hour by hour back to the grid. Its bound of 170 attempts always suffices. */
  method CanonicalLiveStart(v: int, g: Granularity) returns (found: bool, t: int)
    ensures found && t == Floor(v, g)
  {
    hide AlignedHour, FloorHour;
    FloorIsLast(v, g);
    if g.M15? {
      var minute := v - v % 60;
      Minutes(v);
      return true, minute - minute % 900;
    }
    t := v - v % HOUR;
    assert t == v / HOUR * HOUR;
    FloorHourIsLast(v / HOUR, g);
    for k := 0 to 170
      invariant t == (v / HOUR - k) * HOUR && Floor(v, g) <= t
    {
      assert t % HOUR == 0 && t / HOUR == v / HOUR - k;
      if Aligned(t, g) {
        return true, t;
      }
      t := t - HOUR;
    }
    found := false;
  }

  lemma Minutes(v: int)
    ensures var minute := v - v % 60; minute - minute % 900 == v - v % 900
  {
    var q, r := v / 900, v % 900;
    assert v == 60 * (15 * q) + r;
    assert v % 60 == r % 60;
    assert v - v % 60 == 900 * q + (r - r % 60);
  }
}
