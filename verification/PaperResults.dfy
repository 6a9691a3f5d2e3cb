/** What a stored result says about the price path, after any history of runs. */
module PaperResults {
  import opened Rows
  import opened Fills
  import opened PaperTrading
  import opened PaperEvidence
  import opened PaperScans
  import opened PaperTheorems
  import opened PaperHistory
  import opened MarketCalendar
  import Coverage
  import Rounding

  /** The candle of hour `h` is in the table and did not touch the stop. */
  predicate QuietHour(w: Evidence, h: int) {
    exists k :: 0 <= k < |w.rows| && w.rows[k].hour == h && !StopTouched(w.setup, w.rows[k].candle)
  }

  /** In a covered view no open hour between two of its candles is missing. */
  lemma ViewHasHour(w: Evidence, at: int, h: int) returns (row: HourRow)
    requires GovernedHorizon(w) && Usable(w, at) && VisibleRows(w, at) != []
    requires VisibleRows(w, at)[0].hour <= h <= LastHour(VisibleRows(w, at)) && MarketIsOpen(h)
    ensures Has(VisibleRows(w, at), row) && row.hour == h
  {
    hide ValidEvidence, VisibleRows, MarketIsOpen, NextMarketHour, Usable;
    var rows := VisibleRows(w, at);
    UsableIsComplete(w, at);
    assert h in Hours(rows);
    var k :| 0 <= k < |Hours(rows)| && Hours(rows)[k] == h;
    row := rows[k];
  }

  /** A booked target is honest: the market's every open hour from the entry to the exit has its candle, and none of
      them touched the stop. */
  lemma TargetMeansStopUntouched(w: Evidence, times: seq<int>, bound: int)
    requires GovernedHorizon(w) && Rising(times, bound)
    ensures var t := RunAll(w, Fresh, times);
            t.result.Some? && t.result.value.kind.Target? ==>
              && t.entry.Some? && t.result.value.exit.Some? && t.result.value.exit.value.hour.Some?
              && forall h :: t.entry.value.hour <= h <= t.result.value.exit.value.hour.value && MarketIsOpen(h)
                   ==> QuietHour(w, h)
  {
    hide ValidEvidence, VisibleRows, MarketIsOpen, Usable, RunAll, TradeOk, Immature, StopTouched, TargetTouched,
      EntryFill, RMultiple, RiskOf;
    HistoryGrounded(w, times, bound);
    var t := RunAll(w, Fresh, times);
    if t.result.Some? && t.result.value.kind.Target? {
      var at, scan := t.result.value.resolvedAt, ScanOf(t);
      var rows := VisibleRows(w, at);
      VisibleIs(w, at);
      UsableIncreases(w, at);
      var x: HourRow :| Has(rows, x) && ClosesOn(w.setup, scan, x);
      var i := EntryStaysVisible(w, t, at);
      InRange(rows, i, x);
      forall h | scan.entryHour <= h <= scan.exitHour && MarketIsOpen(h)
        ensures QuietHour(w, h)
      {
        var row := ViewHasHour(w, at, h);
        SameHourInView(rows, row, x);
        Quiet(w, at, row);
      }
    }
  }

  lemma InRange(rows: seq<HourRow>, i: nat, x: HourRow)
    requires IncreasingHours(rows) && i < |rows| && Has(rows, x)
    ensures rows[0].hour <= rows[i].hour && x.hour <= LastHour(rows)
  {
  }

  lemma SameHourInView(rows: seq<HourRow>, p: HourRow, q: HourRow)
    requires IncreasingHours(rows) && Has(rows, p) && Has(rows, q)
    ensures p.hour == q.hour ==> p == q
  {
  }

  lemma Quiet(w: Evidence, at: int, row: HourRow)
    requires ValidEvidence(w) && Has(VisibleRows(w, at), row) && !StopTouched(w.setup, row.candle)
    ensures QuietHour(w, row.hour)
  {
    hide VisibleRows, StopTouched;
    VisibleIs(w, at);
    assert Has(w.rows, row);
  }

  /** A booked stop costs at least one R, whatever the gap and after rounding; a booked target of a limit entry pays
      exactly the planned distance, whatever the path. */
  lemma ResultsPayAsPlanned(w: Evidence, times: seq<int>, bound: int)
    requires GovernedHorizon(w) && Rising(times, bound)
    ensures var t := RunAll(w, Fresh, times);
            ClosedByCandle(t) ==>
              && t.result.value.exit.Some?
              && (t.result.value.kind.Invalidated? ==> t.result.value.exit.value.r <= -10000)
              && (t.result.value.kind.Target? && LimitEntry(w.setup) ==>
                    t.result.value.exit.value.milliPips == 10 * Rounding.Abs(w.setup.target - w.setup.entry) > 0)
  {
    hide ValidEvidence, VisibleRows, Usable, RunAll, TradeOk, Immature, StopTouched, TargetTouched, EntryFill,
      RMultiple, RiskOf, StopFill, QuietUntil;
    HistoryGrounded(w, times, bound);
    var t := RunAll(w, Fresh, times);
    if ClosedByCandle(t) {
      var at, scan := t.result.value.resolvedAt, ScanOf(t);
      var rows := VisibleRows(w, at);
      VisibleIs(w, at);
      var i := EntryStaysVisible(w, t, at);
      assert ValidSetup(w.setup) && ValidCandle(rows[i].candle) by { assert ValidEvidence(w); SetupOf(w); }
      var x: HourRow :| Has(rows, x) && ClosesOn(w.setup, scan, x);
      StoppedLosesOneR(w.setup, rows[i].candle, x.candle);
      PlannedProfit(w.setup, rows[i].candle);
    }
  }

  lemma SetupOf(w: Evidence)
    requires ValidEvidence(w)
    ensures ValidSetup(w.setup)
  {
  }

  lemma PlannedProfit(s: Setup, c: Candle)
    requires ValidSetup(s) && ValidCandle(c) && EntryFill(s, c).Some?
    ensures LimitEntry(s) ==>
              SignedChange(s, EntryFill(s, c).value.price, s.target) == Rounding.Abs(s.target - s.entry) > 0
  {
    LimitEntryIff(s);
  }

  // ---------- results at the horizon ----------

  /** No candle the view at `now` holds closes the position, from its entry to maturity. */
  ghost predicate HeldTo(w: Evidence, entry: Option<Entry>, now: int) {
    entry.Some? ==>
      && NextMarketHour(GeneratedHour(w)) <= entry.value.hour
      && QuietUntil(w.setup, VisibleRows(w, now), Holding(entry.value.hour, entry.value.fill), MaturityHour(w))
  }

  /** A result at the horizon rests on a view that covers the whole horizon, and on a scan of it that found no exit. */
  ghost predicate HorizonProven(w: Evidence, t: Trade) {
    t.result.Some? && t.result.value.kind in {Expired, NotActivated} ==>
      var now := t.result.value.resolvedAt;
      && ValidExpiry(w, t.result.value.kind, now)
      && HeldTo(w, t.entry, now)
      && w.daily.Some?
      && (t.result.value.kind.Expired? <==> t.entry.Some?)
      && (t.result.value.kind.Expired? ==>
            && t.result.value.exit.Some?
            && t.result.value.exit.value.price ==
                 if w.setup.buy then w.daily.value.bidClose else w.daily.value.askClose)
  }

  lemma WriteHorizon(w: Evidence, t: Trade, now: int)
    ensures var u := Unresolved(w, t, now);
            u.Some? && u.value.result.Some? && t.result.None? ==>
              && u.value.result.value.kind in {Expired, NotActivated}
              && ValidExpiry(w, u.value.result.value.kind, now) && u.value.result.value.resolvedAt == now
              && w.daily.Some? && (u.value.result.value.kind.Expired? <==> u.value.entry.Some?)
              && (u.value.result.value.kind.Expired? ==>
                    && u.value.result.value.exit.Some?
                    && u.value.result.value.exit.value.price ==
                         if w.setup.buy then w.daily.value.bidClose else w.daily.value.askClose)
  {
    hide VisibleRows, Covered, MaturityAt, MaturityHour, ValidFact, ValidExpiry, RMultiple;
  }

  lemma RunHorizon(w: Evidence, t: Trade, now: int)
    requires GovernedHorizon(w) && Grounded(w, t) && TradeOk(w, t, now) && HorizonProven(w, t)
    ensures Run(w, t, now).Some? && HorizonProven(w, Run(w, t, now).value)
  {
    hide ValidEvidence, VisibleRows, Usable, TradeOk, Grounded, Unresolved, MaturityAt, ValidExpiry, ValidFact,
      ResolveTarget, ValidResolution, ScanFor, RMultiple, RiskOf, HeldTo, QuietUntil;
    GovernedRunNeverRefused(w, t, now);
    if !Settled(t) {
      ScanKinds(w, t, now);
      var scan := ScanFor(w.setup, VisibleRows(w, now), t.entry);
      var t2 := Enter(t.(shared := ResolveTarget(w, t.shared, now)), scan, now);
      WriteHorizon(w, t2, now);
      UnresolvedKeeps(w, t2, now);
      if Usable(w, now) && !scan.Closed? {
        HoldingHeld(w, t, t2, scan, now);
      }
    }
  }

  lemma HoldingHeld(w: Evidence, t: Trade, t2: Trade, scan: Scan, now: int)
    requires ValidEvidence(w) && Grounded(w, t) && TradeOk(w, t, now) && !Settled(t) && Usable(w, now)
    requires scan == ScanFor(w.setup, VisibleRows(w, now), t.entry) && !scan.Closed?
    requires t2.entry ==
               if t.entry.Some? || scan.Waiting? then t.entry else Some(Entry(scan.entryHour, scan.fill, now))
    ensures HeldTo(w, t2.entry, now)
  {
    hide ValidEvidence, VisibleRows, Usable, ScanFor, QuietUntil, MaturityHour, NextMarketHour, EntryRow,
      ResolveTarget, ValidResolution, OpenGrounded, ExitGrounded;
    ScanForMeans(w, t, now);
    if t2.entry.Some? {
      assert scan == Holding(t2.entry.value.hour, t2.entry.value.fill);
      if t.entry.Some? {
        var i := EntryStaysVisible(w, t, now);
      } else {
        var i := EntryStaysVisible(w, t2, now);
      }
    }
  }

  lemma {:induction false} HistoryHorizon(w: Evidence, times: seq<int>, bound: int)
    requires GovernedHorizon(w) && Rising(times, bound)
    ensures HorizonProven(w, RunAll(w, Fresh, times))
  {
    hide ValidEvidence, Run, TradeOk, Grounded, Immature;
    if times != [] {
      var n := |times| - 1;
      HistoryHorizon(w, times[..n], times[n]);
      HistoryGrounded(w, times[..n], times[n]);
      RunHorizon(w, RunAll(w, Fresh, times[..n]), times[n]);
    }
  }

  /** The candle of hour `h` is in the table and gives no entry. */
  predicate UnfilledHour(w: Evidence, h: int) {
    exists k :: 0 <= k < |w.rows| && w.rows[k].hour == h && EntryFill(w.setup, w.rows[k].candle).None?
  }

  /** A covered horizon has the candle of its every open hour. */
  lemma HorizonHasHour(w: Evidence, now: int, h: int) returns (row: HourRow)
    requires GovernedHorizon(w) && MaturityAt(w) <= now && Covered(w, EvidenceRows(w, now), MaturityHour(w), now)
    requires NextMarketHour(GeneratedHour(w)) <= h < MaturityHour(w) && MarketIsOpen(h)
    ensures Has(VisibleRows(w, now), row) && row.hour == h
  {
    hide ValidEvidence, VisibleRows, EvidenceRows, MarketIsOpen, NextMarketHour, Manifest, Coverage.CloseAfter;
    MatureViews(w, now);
    VisibleIs(w, now);
    CoveredIncreases(w, now, MaturityHour(w));
    var rows := VisibleRows(w, now);
    var hours := Hours(rows);
    forall k | 0 <= k < |hours|
      ensures hours[k] < MaturityHour(w)
    {
      HourBounds(w, rows[k], now, Min(now, MaturityAt(w)));
    }
    WithinBound(w);
    Coverage.ShortWindowIsComplete(GeneratedHour(w), MaturityHour(w), hours);
    assert h in hours;
    var k :| 0 <= k < |hours| && hours[k] == h;
    row := rows[k];
  }

  /** A trade is closed as never activated only when every open hour of its horizon has a candle and none of them
      would have filled it. */
  lemma NotActivatedMeansNoFill(w: Evidence, times: seq<int>, bound: int)
    requires GovernedHorizon(w) && Rising(times, bound)
    ensures var t := RunAll(w, Fresh, times);
            t.result.Some? && t.result.value.kind.NotActivated? ==>
              && t.entry.None?
              && forall h :: NextMarketHour(GeneratedHour(w)) <= h < MaturityHour(w) && MarketIsOpen(h) ==>
                  UnfilledHour(w, h)
  {
    hide ValidEvidence, VisibleRows, MarketIsOpen, NextMarketHour, RunAll, EntryFill, MaturityHour, HeldTo;
    HistoryHorizon(w, times, bound);
    var t := RunAll(w, Fresh, times);
    if t.result.Some? && t.result.value.kind.NotActivated? {
      var now := t.result.value.resolvedAt;
      MatureViews(w, now);
      VisibleIs(w, now);
      forall h | NextMarketHour(GeneratedHour(w)) <= h < MaturityHour(w) && MarketIsOpen(h)
        ensures UnfilledHour(w, h)
      {
        var row := HorizonHasHour(w, now, h);
        assert EntryFill(w.setup, row.candle).None?;
        assert Has(w.rows, row);
      }
    }
  }

  /** The candle of hour `h` is in the table and would not have closed a position entered at `entry`. */
  predicate HeldHour(w: Evidence, h: int, entry: Entry) {
    exists k :: 0 <= k < |w.rows| && w.rows[k].hour == h
      && !StopTouched(w.setup, w.rows[k].candle)
      && (TargetTouched(w.setup, w.rows[k].candle) ==> h == entry.hour && !entry.fill.atOpen)
  }

  /** A trade expires only when every open hour from its entry to its maturity has a candle that leaves it open, and it
      is then closed at the horizon candle's bid for a buy, ask for a sell. */
  lemma ExpiredMeansHeld(w: Evidence, times: seq<int>, bound: int)
    requires GovernedHorizon(w) && Rising(times, bound)
    ensures var t := RunAll(w, Fresh, times);
            t.result.Some? && t.result.value.kind.Expired? ==>
              && t.entry.Some? && w.daily.Some? && t.result.value.exit.Some?
              && t.result.value.exit.value.price ==
                  (if w.setup.buy then w.daily.value.bidClose else w.daily.value.askClose)
              && forall h :: t.entry.value.hour <= h < MaturityHour(w) && MarketIsOpen(h) ==>
                  HeldHour(w, h, t.entry.value)
  {
    hide ValidEvidence, VisibleRows, MarketIsOpen, NextMarketHour, RunAll, EntryFill, MaturityHour, FullScan, Usable,
      StopTouched, TargetTouched, ClosedResult;
    HistoryHorizon(w, times, bound);
    var t := RunAll(w, Fresh, times);
    if t.result.Some? && t.result.value.kind.Expired? {
      var now := t.result.value.resolvedAt;
      var rows := VisibleRows(w, now);
      MatureViews(w, now);
      VisibleIs(w, now);
      forall h | t.entry.value.hour <= h < MaturityHour(w) && MarketIsOpen(h)
        ensures HeldHour(w, h, t.entry.value)
      {
        var row := HorizonHasHour(w, now, h);
        assert Has(w.rows, row);
      }
    }
  }
}
