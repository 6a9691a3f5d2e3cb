/** What a trade's rows are after any history of runs: the entry is the first fill of the view it was stored from, and
    the exit the first candle behind it that allows one in the view it was booked from. */
module PaperHistory {
  import opened Rows
  import opened Fills
  import opened PaperTrading
  import opened PaperEvidence
  import opened PaperScans
  import opened PaperTheorems
  import opened MarketCalendar

  function ClosedResult(s: Setup, scan: Scan): Result
    requires scan.Closed? && RiskOf(s, scan.fill.price) != 0
  {
    Result(scan.kind, Some(ExitRow(s, scan.fill, Some(scan.exitHour), scan.price)), scan.ambiguous,
        scan.onEntryCandle, 0)
  }

  predicate ClosedByCandle(t: Trade) {
    t.result.Some? && t.result.value.kind in {Target, Invalidated}
  }

  // ---------- what stored rows rest on ----------

  /** The closed scan a booked exit stands for. */
  function ScanOf(t: Trade): Scan
    requires HasExit(t)
  {
    var e, r := t.entry.value, t.result.value;
    Closed(e.hour, e.fill, r.kind, r.exit.value.hour.value, r.exit.value.price, r.ambiguous, r.onEntryCandle)
  }

  predicate HasExit(t: Trade) {
    t.entry.Some? && t.result.Some? && t.result.value.exit.Some? && t.result.value.exit.value.hour.Some?
  }

  ghost predicate EntryGrounded(w: Evidence, t: Trade) {
    t.entry.Some? ==>
      var at := t.entry.value.enteredAt;
      Usable(w, at) && FirstFilled(w.setup, VisibleRows(w, at), t.entry.value)
  }

  /** The candle of the entry closed the trade then and there, or not at all. */
  ghost predicate OpenGrounded(w: Evidence, t: Trade) {
    t.entry.Some? && !ClosedByCandle(t) ==>
      forall r :: Has(VisibleRows(w, t.entry.value.enteredAt), r) && r.hour == t.entry.value.hour ==>
        LeavesOpen(w.setup, r.candle, t.entry.value.fill)
  }

  ghost predicate ExitGrounded(w: Evidence, t: Trade) {
    ClosedByCandle(t) ==>
      && HasExit(t) && RiskOf(w.setup, t.entry.value.fill.price) != 0
      && t.result.value.(resolvedAt := 0) == ClosedResult(w.setup, ScanOf(t))
      && t.entry.value.enteredAt <= t.result.value.resolvedAt && Usable(w, t.result.value.resolvedAt)
      && Booked(w.setup, VisibleRows(w, t.result.value.resolvedAt), ScanOf(t))
  }

  ghost predicate Grounded(w: Evidence, t: Trade) {
    EntryGrounded(w, t) && OpenGrounded(w, t) && ExitGrounded(w, t)
  }

  /** The candle of a stored entry is still seen, at its place, by every later covered view. */
  lemma EntryStaysVisible(w: Evidence, t: Trade, now: int) returns (i: nat)
    requires ValidEvidence(w) && EntryGrounded(w, t)
    requires t.entry.Some? && t.entry.value.enteredAt <= now && Usable(w, now)
    ensures i < |VisibleRows(w, now)| && EntryRow(w.setup, t.entry.value, VisibleRows(w, now)[i])
    ensures Has(VisibleRows(w, t.entry.value.enteredAt), VisibleRows(w, now)[i])
    ensures NextMarketHour(GeneratedHour(w)) <= t.entry.value.hour < MaturityHour(w)
  {
    hide ValidEvidence, VisibleRows, Usable, EntryRow, MaturityHour, NextMarketHour;
    var at := t.entry.value.enteredAt;
    var row :| Has(VisibleRows(w, at), row) && EntryRow(w.setup, t.entry.value, row);
    VisibleGrows(w, at, now);
    var k :| 0 <= k < |VisibleRows(w, at)| && VisibleRows(w, at)[k] == row;
    i :| 0 <= i < |VisibleRows(w, now)| && VisibleRows(w, now)[i] == row;
    RowHour(w.setup, t.entry.value, row);
    InHorizon(w, now, i);
  }

  lemma RowHour(s: Setup, e: Entry, row: HourRow)
    requires EntryRow(s, e, row)
    ensures row.hour == e.hour
  {
  }

  lemma InHorizon(w: Evidence, now: int, i: nat)
    requires ValidEvidence(w) && Usable(w, now) && i < |VisibleRows(w, now)|
    ensures NextMarketHour(GeneratedHour(w)) <= VisibleRows(w, now)[i].hour < MaturityHour(w)
  {
    hide VisibleRows, NextMarketHour, ValidEvidence, MaturityHour;
    VisibleIs(w, now);
    assert Hours(VisibleRows(w, now))[0] == VisibleRows(w, now)[0].hour;
    HourBounds(w, VisibleRows(w, now)[i], now, Min(now, MaturityAt(w)));
  }

  /** What the scan of one run finds: the stored entry or a first fill, and behind it the first candle that closes. */
  lemma ScanForMeans(w: Evidence, t: Trade, now: int)
    requires ValidEvidence(w) && Grounded(w, t) && !Settled(t) && Usable(w, now)
    requires t.entry.Some? ==> t.entry.value.enteredAt <= now
    ensures var rows := VisibleRows(w, now);
            var scan := ScanFor(w.setup, rows, t.entry);
            && (t.entry.Some? ==>
                  !scan.Waiting? && scan.entryHour == t.entry.value.hour && scan.fill == t.entry.value.fill)
            && (t.entry.None? && !scan.Waiting? ==> FirstFilled(w.setup, rows, Entry(scan.entryHour, scan.fill, now)))
            && (scan.Closed? ==> Booked(w.setup, rows, scan))
            && (scan.Holding? ==> QuietUntil(w.setup, rows, scan, MaturityHour(w)))
  {
    hide ValidEvidence, VisibleRows, Usable, FullScan, ResumedScan, EntryRow, FirstFilled, Booked, QuietUntil,
      MaturityHour, EntryGrounded, LeavesOpen;
    var rows := VisibleRows(w, now);
    UsableIncreases(w, now);
    if t.entry.None? {
      ClosedMeans(w.setup, rows);
      HoldingMeans(w.setup, rows, MaturityHour(w));
      if !FullScan(w.setup, rows).Waiting? { ScanFirstFilled(w.setup, rows, now); }
    } else {
      var i := EntryStaysVisible(w, t, now);
      RowHour(w.setup, t.entry.value, rows[i]);
      ResumedIs(w.setup, rows, t.entry.value, i);
      BehindEntry(w.setup, rows, i, t.entry.value.fill, MaturityHour(w));
    }
  }

  lemma FreshGrounded(w: Evidence, bound: int)
    ensures Grounded(w, Fresh) && TradeOk(w, Fresh, bound) && Immature(Fresh)
  {
  }

  /** Rows that rest on the same entry and exit. */
  lemma SameGrounded(w: Evidence, t: Trade, u: Trade)
    requires Grounded(w, t) && u.entry == t.entry
    requires u.result == t.result || (t.result.None? && u.result.Some? && !ClosedByCandle(u))
    ensures Grounded(w, u)
  {
    hide Usable, VisibleRows, FirstFilled, Booked, LeavesOpen;
  }

  /** What `Conclude` does to entry and result. */
  lemma ConcludeWrites(w: Evidence, t: Trade, scan: Scan, now: int)
    requires !Settled(t) && (scan.Closed? ==> scan.kind in {Target, Invalidated})
    ensures var u := Conclude(w, t, scan, now);
            u.Some? ==>
              && u.value.entry == t.entry
              && (ClosedByCandle(u.value) <==> scan.Closed?)
              && (scan.Closed? ==>
                    && RiskOf(w.setup, scan.fill.price) != 0
                    && u.value.result == Some(ClosedResult(w.setup, scan).(resolvedAt := now)))
  {
    hide VisibleRows, Covered, MaturityAt, MaturityHour, ValidExpiry, ValidFact, RiskOf, RMultiple;
  }

  lemma NewExitGrounded(w: Evidence, u: Trade, scan: Scan, now: int)
    requires u.entry.Some? && scan.Closed? && RiskOf(w.setup, scan.fill.price) != 0
    requires u.entry.value.hour == scan.entryHour && u.entry.value.fill == scan.fill && u.entry.value.enteredAt <= now
    requires u.result == Some(ClosedResult(w.setup, scan).(resolvedAt := now))
    requires Usable(w, now) && Booked(w.setup, VisibleRows(w, now), scan)
    ensures ExitGrounded(w, u)
  {
    hide Usable, VisibleRows, Booked, RiskOf, RMultiple;
    assert HasExit(u) && ScanOf(u) == scan;
  }

  lemma NewEntryOpen(w: Evidence, scan: Scan, now: int)
    requires ValidEvidence(w) && Usable(w, now)
    requires scan.Holding? && QuietUntil(w.setup, VisibleRows(w, now), scan, MaturityHour(w))
    ensures forall r :: Has(VisibleRows(w, now), r) && r.hour == scan.entryHour ==>
        LeavesOpen(w.setup, r.candle, scan.fill)
  {
    hide ValidEvidence, Usable, VisibleRows, StopTouched, TargetTouched, MaturityHour, NextMarketHour;
    forall r | Has(VisibleRows(w, now), r) && r.hour == scan.entryHour
      ensures LeavesOpen(w.setup, r.candle, scan.fill)
    {
      var k :| 0 <= k < |VisibleRows(w, now)| && VisibleRows(w, now)[k] == r;
      InHorizon(w, now, k);
    }
  }

  /** One run keeps every trade grounded. */
  lemma RunGrounded(w: Evidence, t: Trade, now: int)
    requires GovernedHorizon(w) && Grounded(w, t) && TradeOk(w, t, now)
    ensures Run(w, t, now).Some? && TradeOk(w, Run(w, t, now).value, now) && Grounded(w, Run(w, t, now).value)
  {
    hide ValidEvidence, VisibleRows, Usable, ResolveTarget, ValidResolution, Conclude, ValidFact, MaturityAt,
      Grounded, ScanFor, ClosedByCandle;
    GovernedRunNeverRefused(w, t, now);
    if !Settled(t) {
      if Usable(w, now) {
        var t1 := t.(shared := ResolveTarget(w, t.shared, now));
        var scan := ScanFor(w.setup, VisibleRows(w, now), t.entry);
        ScanForMeans(w, t, now);
        ScanKinds(w, t, now);
        ConcludeWrites(w, Enter(t1, scan, now), scan, now);
        ConcludedGrounded(w, t, Enter(t1, scan, now), Run(w, t, now).value, scan, now);
      } else {
        SameGrounded(w, t, Run(w, t, now).value);
      }
    }
  }

  lemma ConcludedGrounded(w: Evidence, t: Trade, t2: Trade, u: Trade, scan: Scan, now: int)
    requires ValidEvidence(w) && Grounded(w, t) && !Settled(t) && TradeOk(w, t, now) && Usable(w, now)
    requires t.entry.Some? ==> !scan.Waiting? && scan.entryHour == t.entry.value.hour && scan.fill == t.entry.value.fill
    requires t.entry.None? && !scan.Waiting? ==>
               FirstFilled(w.setup, VisibleRows(w, now), Entry(scan.entryHour, scan.fill, now))
    requires scan.Closed? ==> Booked(w.setup, VisibleRows(w, now), scan)
    requires scan.Holding? ==> QuietUntil(w.setup, VisibleRows(w, now), scan, MaturityHour(w))
    requires t2.entry ==
               if t.entry.Some? || scan.Waiting? then t.entry else Some(Entry(scan.entryHour, scan.fill, now))
    requires u.entry == t2.entry && (ClosedByCandle(u) <==> scan.Closed?)
    requires scan.Closed? ==>
               && RiskOf(w.setup, scan.fill.price) != 0
               && u.result == Some(ClosedResult(w.setup, scan).(resolvedAt := now))
    ensures Grounded(w, u)
  {
    hide ValidEvidence, VisibleRows, Usable, FirstFilled, Booked, QuietUntil, LeavesOpen, RiskOf, RMultiple,
      ClosedByCandle, MaturityHour, ResolveTarget, ValidResolution, HasExit;
    assert EntryGrounded(w, u);
    if scan.Closed? {
      NewExitGrounded(w, u, scan, now);
    } else if scan.Holding? {
      NewEntryOpen(w, scan, now);
      assert ClosedByCandle(t) ==> Settled(t) by { BookedIsSettled(t); }
    }
  }

  lemma BookedIsSettled(t: Trade)
    ensures ClosedByCandle(t) ==> Settled(t)
  {
  }

  // ---------- histories ----------

  predicate Rising(times: seq<int>, bound: int) {
    && (forall i, j :: 0 <= i < j < |times| ==> times[i] <= times[j])
    && (forall i :: 0 <= i < |times| ==> times[i] <= bound)
  }

  /** Rows a history that has not reached maturity can leave. */
  ghost predicate Immature(t: Trade) {
    && t.fact.None? && t.shared.None?
    && (t.result.Some? ==> ClosedByCandle(t))
    && (t.entry.None? ==> t == Fresh)
  }

  lemma RunImmature(w: Evidence, t: Trade, now: int)
    requires GovernedHorizon(w) && TradeOk(w, t, now) && Immature(t) && now < MaturityAt(w)
    ensures Run(w, t, now).Some? && Immature(Run(w, t, now).value)
  {
    hide ValidEvidence, VisibleRows, Usable, FullScan, ResumedScan, TradeOk, MaturityAt, MaturityHour, Covered;
    GovernedRunNeverRefused(w, t, now);
    if !Settled(t) {
      StoredResolution(w, t.shared, now);
      ScanKinds(w, t, now);
      ImmatureIsUncovered(w, now);
      NotYetFourteen(w, now);
    }
  }

  lemma NotYetFourteen(w: Evidence, now: int)
    requires GovernedHorizon(w) && now < MaturityAt(w)
    ensures now <= w.generatedAt + FOURTEEN_DAYS
  {
    FiveSessionsFit(w);
  }

  lemma TradeOkLater(w: Evidence, t: Trade, now: int, later: int)
    requires TradeOk(w, t, now) && now <= later
    ensures TradeOk(w, t, later)
  {
  }

  /** After any history the rows rest on the views they were written from, and keep what their validators check. */
  lemma {:induction false} HistoryGrounded(w: Evidence, times: seq<int>, bound: int)
    requires GovernedHorizon(w) && Rising(times, bound)
    ensures var t := RunAll(w, Fresh, times);
            && Grounded(w, t) && TradeOk(w, t, bound)
            && (ClosedByCandle(t) ==> t.result.value.resolvedAt <= bound)
            && ((forall i :: 0 <= i < |times| ==> times[i] < MaturityAt(w)) ==> Immature(t))
  {
    hide ValidEvidence, Run, TradeOk, Grounded, MaturityAt, Immature;
    if times == [] {
      FreshGrounded(w, bound);
    } else {
      var n := |times| - 1;
      var now := times[n];
      var before := RunAll(w, Fresh, times[..n]);
      HistoryGrounded(w, times[..n], now);
      RunGrounded(w, before, now);
      BookedBy(w, before, now);
      TradeOkLater(w, Run(w, before, now).value, now, bound);
      if forall i :: 0 <= i < |times| ==> times[i] < MaturityAt(w) {
        assert forall i :: 0 <= i < n ==> times[..n][i] == times[i];
        RunImmature(w, before, now);
      }
    }
  }

  /** An exit is dated by the run that books it. */
  lemma BookedBy(w: Evidence, t: Trade, now: int)
    requires Run(w, t, now).Some? && (ClosedByCandle(t) ==> t.result.value.resolvedAt <= now)
    ensures var u := Run(w, t, now).value; ClosedByCandle(u) ==> u.result.value.resolvedAt <= now
  {
    hide VisibleRows, Covered, Usable, MaturityAt, MaturityHour, ResolveTarget, ValidResolution, FullScan,
      ResumedScan, ValidExpiry, ValidFact, RMultiple;
  }
}
