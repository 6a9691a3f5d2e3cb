/** Resolving a trade over many runs, each resuming from the rows the last one stored, against one run over all the
    evidence: exactly when both end alike. */
module PaperResume {
  import opened Rows
  import opened Fills
  import opened PaperTrading
  import opened PaperEvidence
  import opened PaperScans
  import opened PaperTheorems
  import opened PaperHistory
  import opened MarketCalendar

  /** The rows say what one scan says. */
  ghost predicate Follows(s: Setup, t: Trade, scan: Scan) {
    && (t.entry.Some? <==> !scan.Waiting?)
    && (t.entry.Some? ==> t.entry.value.hour == scan.entryHour && t.entry.value.fill == scan.fill)
    && (ClosedByCandle(t) <==> scan.Closed?)
    && (scan.Closed? ==> RiskOf(s, scan.fill.price) != 0 && t.result.value.(resolvedAt := 0) == ClosedResult(s, scan))
  }

  /** What `Conclude` adds to a trade whose entry already agrees with the scan. */
  lemma ConcludeFollows(w: Evidence, t: Trade, scan: Scan, now: int)
    requires !Settled(t) && (scan.Closed? ==> scan.kind in {Target, Invalidated})
    requires t.entry.Some? <==> !scan.Waiting?
    requires t.entry.Some? ==> t.entry.value.hour == scan.entryHour && t.entry.value.fill == scan.fill
    ensures Conclude(w, t, scan, now).Some? ==> Follows(w.setup, Conclude(w, t, scan, now).value, scan)
  {
    hide VisibleRows, Covered, MaturityAt, MaturityHour, ValidExpiry, ValidFact, RiskOf, RMultiple;
  }

  lemma EnterAgrees(w: Evidence, t: Trade, t1: Trade, scan: Scan, now: int)
    requires scan == ScanFor(w.setup, VisibleRows(w, now), t.entry) && t1.entry == t.entry
    ensures var t2 := Enter(t1, scan, now);
            && (t2.entry.Some? <==> !scan.Waiting?)
            && (t2.entry.Some? ==> t2.entry.value.hour == scan.entryHour && t2.entry.value.fill == scan.fill)
            && t2.result == t1.result && t2.fact == t1.fact
  {
    hide VisibleRows;
    var rows, s := VisibleRows(w, now), w.setup;
    if t.entry.Some? {
      var e := t.entry.value;
      var i := Locate(rows, e.hour, 0);
      var k := if i.Some? then i.value + 1 else 0;
      var x := ExitScanFinds(s, rows, e.hour, e.fill, k);
      if x < |rows| { ExitScanClosesIff(s, rows, e.hour, e.fill, k, x); }
    }
  }

  // ---------- resume against batch ----------

  /** The economic content of the rows: everything but the instants they were written at. */
  datatype Economics = Economics(entryHour: Option<int>, fill: Option<Fill>, result: Option<Result>, fact: Option<Fact>)

  function EconomicsOf(t: Trade): Economics {
    Economics(
      if t.entry.Some? then Some(t.entry.value.hour) else None,
      if t.entry.Some? then Some(t.entry.value.fill) else None,
      if t.result.Some? then Some(t.result.value.(resolvedAt := 0)) else None,
      t.fact)
  }

  /** Two trades that agree up to the instants of their entries are concluded alike. */
  lemma ConcludeAlike(w: Evidence, t: Trade, u: Trade, scan: Scan, now: int)
    requires EconomicsOf(t) == EconomicsOf(u) && t.shared == u.shared && !Settled(t)
    requires TradeOk(w, t, now) && TradeOk(w, u, now)
    requires Conclude(w, t, scan, now).Some? && Conclude(w, u, scan, now).Some?
    ensures EconomicsOf(Conclude(w, t, scan, now).value) == EconomicsOf(Conclude(w, u, scan, now).value)
  {
    hide VisibleRows, Covered, MaturityAt, MaturityHour, EvidenceRows, ValidExpiry, RMultiple, ValidResolution;
  }

  /** Runs whose scans agree write the same economics. */
  lemma SameScanAlike(w: Evidence, t: Trade, u: Trade, now: int)
    requires GovernedHorizon(w) && Usable(w, now) && u.shared == t.shared
    requires TradeOk(w, t, now) && !Settled(t) && TradeOk(w, u, now) && !Settled(u)
    requires ScanFor(w.setup, VisibleRows(w, now), t.entry) == ScanFor(w.setup, VisibleRows(w, now), u.entry)
    ensures Run(w, t, now).Some? && Run(w, u, now).Some?
    ensures EconomicsOf(Run(w, t, now).value) == EconomicsOf(Run(w, u, now).value)
  {
    hide ValidEvidence, VisibleRows, Usable, ScanFor, ResolveTarget, ValidResolution, Conclude, ValidFact, MaturityAt;
    GovernedRunNeverRefused(w, t, now);
    GovernedRunNeverRefused(w, u, now);
    StoredResolution(w, t.shared, now);
    var scan := ScanFor(w.setup, VisibleRows(w, now), t.entry);
    var shared := ResolveTarget(w, t.shared, now);
    var t1, u1 := t.(shared := shared), u.(shared := shared);
    EnterAgrees(w, t, t1, scan, now);
    EnterAgrees(w, u, u1, scan, now);
    ScanForRisk(w, t, now);
    ConcludeAlike(w, Enter(t1, scan, now), Enter(u1, scan, now), scan, now);
  }

  /** A run without a stored entry follows a scan of everything it sees. */
  lemma BatchFollows(w: Evidence, u: Trade, now: int)
    requires GovernedHorizon(w) && TradeOk(w, u, now) && !Settled(u) && u.entry.None? && Usable(w, now)
    ensures Run(w, u, now).Some? && Follows(w.setup, Run(w, u, now).value, FullScan(w.setup, VisibleRows(w, now)))
  {
    hide ValidEvidence, VisibleRows, Usable, FullScan, ResolveTarget, ValidResolution, Conclude, ValidFact,
      MaturityAt, Follows;
    GovernedRunNeverRefused(w, u, now);
    var u1 := u.(shared := ResolveTarget(w, u.shared, now));
    var scan := FullScan(w.setup, VisibleRows(w, now));
    EnterAgrees(w, u, u1, scan, now);
    ScanKinds(w, u, now);
    ConcludeFollows(w, Enter(u1, scan, now), scan, now);
  }

  lemma ClosedHasNoFact(w: Evidence, u: Trade, now: int)
    requires !Settled(u) && Run(w, u, now).Some? && ClosedByCandle(Run(w, u, now).value)
    ensures Run(w, u, now).value.fact.None?
  {
    hide VisibleRows, Covered, Usable, MaturityAt, MaturityHour, ResolveTarget, ValidResolution, FullScan, ResumedScan;
  }

  lemma UnusableKeepsEntry(w: Evidence, t: Trade, now: int)
    requires !Usable(w, now) && Run(w, t, now).Some?
    ensures Run(w, t, now).value.entry == t.entry
  {
    hide Usable, MaturityAt, ResolveTarget, ValidResolution;
  }

  /** Nothing the stored rows passed over was added to the view since: no candle in front of the entry that would have
      filled it, and none between entry and booked exit that touches a level. */
  ghost predicate NothingSlippedIn(w: Evidence, t: Trade, now: int) {
    t.entry.Some? ==>
      && NoEarlierFill(w.setup, VisibleRows(w, now), t.entry.value.hour)
      && (HasExit(t) ==>
            NoTouchBetween(w.setup, VisibleRows(w, now), t.entry.value.hour, t.result.value.exit.value.hour.value))
  }

  /** A trade still open: a single run agrees exactly when nothing fills in front of the stored entry. */
  lemma OpenAlikeIff(w: Evidence, t: Trade, u: Trade, now: int)
    requires GovernedHorizon(w) && Usable(w, now) && u.shared == t.shared && Grounded(w, t)
    requires TradeOk(w, t, now) && !Settled(t) && t.entry.Some?
    requires TradeOk(w, u, now) && !Settled(u) && u.entry.None?
    ensures Run(w, t, now).Some? && Run(w, u, now).Some?
    ensures EconomicsOf(Run(w, t, now).value) == EconomicsOf(Run(w, u, now).value) <==>
              NoEarlierFill(w.setup, VisibleRows(w, now), t.entry.value.hour)
  {
    hide ValidEvidence, VisibleRows, Usable, FullScan, ResumedScan, Run, LeavesOpen, NoEarlierFill, TradeOk, EntryRow;
    var rows, e := VisibleRows(w, now), t.entry.value;
    assert e.enteredAt <= now by { EnteredBefore(w, t, now); }
    var i := EntryStaysVisible(w, t, now);
    RowHour(w.setup, e, rows[i]);
    UsableIncreases(w, now);
    GovernedRunNeverRefused(w, t, now);
    RunKeepsEntry(w, t, now);
    BatchFollows(w, u, now);
    if NoEarlierFill(w.setup, rows, e.hour) {
      FullIsResumed(w.setup, rows, e, i);
      SameScanAlike(w, t, u, now);
    } else {
      EarlierFillEnters(w.setup, rows, e.hour);
    }
  }

  lemma EnteredBefore(w: Evidence, t: Trade, now: int)
    requires TradeOk(w, t, now) && t.entry.Some?
    ensures t.entry.value.enteredAt <= now
  {
  }

  lemma RunKeepsEntry(w: Evidence, t: Trade, now: int)
    requires Run(w, t, now).Some? && t.entry.Some?
    ensures Run(w, t, now).value.entry == t.entry
  {
    hide VisibleRows, Covered, Usable, MaturityAt, MaturityHour, ResolveTarget, ValidResolution, FullScan,
      ResumedScan, ValidExpiry, ValidFact, RMultiple;
  }

  /** A trade with a booked exit: a single run agrees exactly when nothing slipped in front of entry or exit. */
  lemma BookedAlikeIff(w: Evidence, t: Trade, u: Trade, now: int)
    requires GovernedHorizon(w) && Usable(w, now) && Grounded(w, t) && TradeOk(w, t, now)
    requires t.entry.Some? && ClosedByCandle(t) && t.fact.None? && t.result.value.resolvedAt <= now
    requires TradeOk(w, u, now) && !Settled(u) && u.entry.None?
    ensures Run(w, u, now).Some?
    ensures EconomicsOf(Run(w, u, now).value) == EconomicsOf(t) <==> NothingSlippedIn(w, t, now)
  {
    hide ValidEvidence, VisibleRows, Usable, FullScan, Run, LeavesOpen, NoEarlierFill, NoTouchBetween, TradeOk,
      EntryRow, Booked, RMultiple, RiskOf;
    var rows, e := VisibleRows(w, now), t.entry.value;
    assert e.enteredAt <= now by { EnteredBefore(w, t, now); }
    var i := EntryStaysVisible(w, t, now);
    RowHour(w.setup, e, rows[i]);
    UsableIncreases(w, now);
    BatchFollows(w, u, now);
    if !NoEarlierFill(w.setup, rows, e.hour) {
      EarlierFillEnters(w.setup, rows, e.hour);
    } else if !NoTouchBetween(w.setup, rows, e.hour, ScanOf(t).exitHour) {
      EarlierTouchCloses(w.setup, rows, e, i, ScanOf(t).exitHour);
    } else {
      BookedAgain(w, t, now, i);
      ClosedHasNoFact(w, u, now);
    }
  }

  /** With nothing slipped in, scanning everything again books the exit again. */
  lemma BookedAgain(w: Evidence, t: Trade, now: int, i: nat)
    requires ValidEvidence(w) && Usable(w, now) && Grounded(w, t) && t.entry.Some? && ClosedByCandle(t)
    requires t.result.value.resolvedAt <= now && NothingSlippedIn(w, t, now)
    requires i < |VisibleRows(w, now)| && EntryRow(w.setup, t.entry.value, VisibleRows(w, now)[i])
    requires Has(VisibleRows(w, t.entry.value.enteredAt), VisibleRows(w, now)[i])
    ensures FullScan(w.setup, VisibleRows(w, now)) == ScanOf(t)
  {
    hide ValidEvidence, VisibleRows, Usable, FullScan, NoEarlierFill, NoTouchBetween, EntryRow, FirstFilled,
      RMultiple, RiskOf, ClosesOn, StopTouched, TargetTouched;
    var rows, e, scan := VisibleRows(w, now), t.entry.value, ScanOf(t);
    var at := t.result.value.resolvedAt;
    UsableIncreases(w, now);
    RowHour(w.setup, e, rows[i]);
    var x :| Has(VisibleRows(w, at), x) && ClosesOn(w.setup, scan, x);
    SeenLater(w, at, now, x);
    SeenLater(w, e.enteredAt, at, rows[i]);
    assert e.hour < scan.exitHour ==> LeavesOpen(w.setup, rows[i].candle, e.fill);
    FullIsBooked(w.setup, rows, e, i, scan, x);
  }

  lemma SeenLater(w: Evidence, older: int, newer: int, row: HourRow)
    requires ValidEvidence(w) && older <= newer && Has(VisibleRows(w, older), row)
    ensures Has(VisibleRows(w, newer), row)
  {
    hide ValidEvidence, VisibleRows;
    VisibleGrows(w, older, newer);
    var k :| 0 <= k < |VisibleRows(w, older)| && VisibleRows(w, older)[k] == row;
  }

  lemma SharedGrounded(w: Evidence, t: Trade, shared: Option<Resolution>, now: int)
    requires Grounded(w, t) && TradeOk(w, t, now)
    requires shared.Some? ==> shared.value.resolvedAt <= now && ValidResolution(w, shared.value)
    ensures Grounded(w, t.(shared := shared)) && TradeOk(w, t.(shared := shared), now)
  {
    hide Grounded, ValidResolution;
    SameGrounded(w, t, t.(shared := shared));
  }

  /** Resume against batch. Any number of early runs, each resuming from the last, followed by a run behind maturity:
      the trade has the same entry, fill, outcome, exit candle, price, pips, R and coverage fact as if the last run
      had been the only one - exactly when no entry was stored, or the final view is covered and nothing slipped in
      behind the stored rows. Any job may have resolved the shared target in between. */
  lemma ResumeIsBatchIff(w: Evidence, early: seq<int>, now: int, shared: Option<Resolution>)
    requires GovernedHorizon(w) && Rising(early, now) && MaturityAt(w) <= now
    requires forall i :: 0 <= i < |early| ==> early[i] < MaturityAt(w)
    requires shared.Some? ==> shared.value.resolvedAt <= now && ValidResolution(w, shared.value)
    ensures var stored := RunAll(w, Fresh, early);
            var resumed := Run(w, stored.(shared := shared), now);
            var batch := Run(w, Fresh.(shared := shared), now);
            && resumed.Some? && Settled(resumed.value) && batch.Some? && Settled(batch.value)
            && (EconomicsOf(resumed.value) == EconomicsOf(batch.value) <==>
                  stored.entry.None? || (Usable(w, now) && NothingSlippedIn(w, stored, now)))
  {
    hide ValidEvidence, VisibleRows, Usable, TradeOk, Run, RunAll, MaturityAt, Grounded, ValidResolution,
      NoEarlierFill, NoTouchBetween;
    var stored := RunAll(w, Fresh, early);
    HistoryGrounded(w, early, now);
    FreshGrounded(w, now);
    var t, u := stored.(shared := shared), Fresh.(shared := shared);
    SharedGrounded(w, stored, shared, now);
    SharedGrounded(w, Fresh, shared, now);
    GovernedRunNeverRefused(w, t, now);
    GovernedRunNeverRefused(w, u, now);
    RunRefusedIff(w, t, now);
    RunRefusedIff(w, u, now);
    if stored.entry.Some? {
      assert NothingSlippedIn(w, t, now) <==> NothingSlippedIn(w, stored, now);
      if !Usable(w, now) {
        UnusableKeepsEntry(w, t, now);
        UnusableKeepsEntry(w, u, now);
      } else if ClosedByCandle(stored) {
        BookedAlikeIff(w, t, u, now);
        SettledStays(w, t, now);
      } else {
        OpenAlikeIff(w, t, u, now);
      }
    }
  }

  // ---------- what can slip in ----------

  /** Only candles of closed hours that came in late can slip in, behind the view the entry was stored from or the one
      the exit was booked from; with closed hours in order nothing does. */
  lemma SlippedIsLate(w: Evidence, t: Trade, now: int)
    requires GovernedHorizon(w) && Usable(w, now) && Grounded(w, t) && t.entry.Some?
    requires t.entry.value.enteredAt <= now && (t.result.Some? ==> t.result.value.resolvedAt <= now)
    requires t.result.Some? ==> ClosedByCandle(t)
    ensures !NothingSlippedIn(w, t, now) ==>
              || LateClosedCandle(w, t.entry.value.enteredAt, now)
              || (ClosedByCandle(t) && LateClosedCandle(w, t.result.value.resolvedAt, now))
    ensures ClosedHoursInOrder(w) ==> NothingSlippedIn(w, t, now)
  {
    hide ValidEvidence, VisibleRows, Usable, LateClosedCandle, ClosedHoursInOrder, NoEarlierFill, NoTouchBetween,
      Booked, FirstFilled, RMultiple, RiskOf;
    EntrySlips(w, t, now);
    if ClosedByCandle(t) {
      ExitSlips(w, t, now);
    }
  }

  lemma EntrySlips(w: Evidence, t: Trade, now: int)
    requires GovernedHorizon(w) && Usable(w, now) && Grounded(w, t) && t.entry.Some? && t.entry.value.enteredAt <= now
    ensures var at := t.entry.value.enteredAt;
            !NoEarlierFill(w.setup, VisibleRows(w, now), t.entry.value.hour) ==>
              LateClosedCandle(w, at, now) && !ClosedHoursInOrder(w)
  {
    hide ValidEvidence, VisibleRows, Usable, EntryRow, MarketIsOpen, CanFill, ClosedHoursInOrder;
    var at, rows := t.entry.value.enteredAt, VisibleRows(w, t.entry.value.enteredAt);
    var row :| Has(rows, row) && EntryRow(w.setup, t.entry.value, row);
    RowHour(w.setup, t.entry.value, row);
    if !NoEarlierFill(w.setup, VisibleRows(w, now), t.entry.value.hour) {
      var r :| Has(VisibleRows(w, now), r) && r.hour < t.entry.value.hour && CanFill(w.setup, r);
      NewIsLate(w, at, now, r, row);
    }
  }

  lemma ExitSlips(w: Evidence, t: Trade, now: int)
    requires GovernedHorizon(w) && Usable(w, now) && Grounded(w, t) && ClosedByCandle(t) && HasExit(t)
    requires t.result.value.resolvedAt <= now
    ensures var at := t.result.value.resolvedAt;
            !NoTouchBetween(w.setup, VisibleRows(w, now), t.entry.value.hour, ScanOf(t).exitHour) ==>
              LateClosedCandle(w, at, now) && !ClosedHoursInOrder(w)
  {
    hide ValidEvidence, VisibleRows, Usable, FirstFilled, MarketIsOpen, StopTouched, TargetTouched, RMultiple, RiskOf,
      StopFill, ClosedHoursInOrder;
    var at, scan := t.result.value.resolvedAt, ScanOf(t);
    var rows := VisibleRows(w, at);
    var x :| Has(rows, x) && ClosesOn(w.setup, scan, x);
    if !NoTouchBetween(w.setup, VisibleRows(w, now), t.entry.value.hour, scan.exitHour) {
      var r :| Has(VisibleRows(w, now), r) && scan.entryHour < r.hour < scan.exitHour && Touches(w.setup, r);
      NewIsLate(w, at, now, r, x);
    }
  }

  /** A candle that joined a covered view in front of one it held is of a closed hour, and late. */
  lemma NewIsLate(w: Evidence, older: int, newer: int, r: HourRow, held: HourRow)
    requires GovernedHorizon(w) && older <= newer && Usable(w, older) && Usable(w, newer)
    requires Has(VisibleRows(w, newer), r) && !Has(VisibleRows(w, older), r)
    requires Has(VisibleRows(w, older), held) && r.hour < held.hour
    ensures LateClosedCandle(w, older, newer) && !ClosedHoursInOrder(w)
  {
    hide ValidEvidence, VisibleRows, Usable, MarketIsOpen, ClosedHoursInOrder;
    var rows := VisibleRows(w, older);
    UsableIncreases(w, older);
    var k :| 0 <= k < |rows| && rows[k] == held;
    assert held.hour <= LastHour(rows);
    if MarketIsOpen(r.hour) {
      OpenRowIsOld(w, older, newer, r);
    }
    NothingLate(w, older, newer);
  }

  // ---------- whole schedules ----------

  lemma SettledStays(w: Evidence, t: Trade, now: int)
    requires Settled(t)
    ensures Run(w, t, now) == Some(t)
  {
  }

  lemma {:induction false} SettledForever(w: Evidence, t: Trade, times: seq<int>)
    requires Settled(t)
    ensures RunAll(w, t, times) == t
  {
    if times != [] {
      SettledForever(w, t, times[..|times| - 1]);
    }
  }

  lemma {:induction false} RunAllConcat(w: Evidence, t: Trade, a: seq<int>, b: seq<int>)
    ensures RunAll(w, t, a + b) == RunAll(w, RunAll(w, t, a), b)
  {
    hide Run;
    if b == [] {
      assert a + b == a;
    } else {
      var all := a + b;
      assert all[..|all| - 1] == a + b[..|b| - 1];
      RunAllConcat(w, t, a, b[..|b| - 1]);
    }
  }

  /** A whole schedule, early runs, the first mature one and any number behind it, comes to what its first mature run
      alone would have stored, exactly under the same condition. */
  lemma ScheduleIsBatchIff(w: Evidence, early: seq<int>, now: int, later: seq<int>)
    requires GovernedHorizon(w) && Rising(early, now) && MaturityAt(w) <= now
    requires forall i :: 0 <= i < |early| ==> early[i] < MaturityAt(w)
    ensures var stored := RunAll(w, Fresh, early);
            EconomicsOf(RunAll(w, Fresh, early + [now] + later)) == EconomicsOf(RunAll(w, Fresh, [now])) <==>
              stored.entry.None? || (Usable(w, now) && NothingSlippedIn(w, stored, now))
  {
    hide ValidEvidence, Usable, Run, MaturityAt, ValidResolution, Grounded, NothingSlippedIn;
    var stored := RunAll(w, Fresh, early);
    HistoryGrounded(w, early, now);
    ResumeIsBatchIff(w, early, now, None);
    assert stored.(shared := None) == stored;
    assert Fresh.(shared := None) == Fresh;
    RunAllConcat(w, Fresh, early, [now]);
    RunAllConcat(w, Fresh, early + [now], later);
    assert RunAll(w, stored, [now]) == Run(w, stored, now).value by { OneRun(w, stored, now); }
    assert RunAll(w, Fresh, [now]) == Run(w, Fresh, now).value by { OneRun(w, Fresh, now); }
    SettledForever(w, Run(w, stored, now).value, later);
  }

  /** When closed hours arrive in order only lost coverage makes a difference. */
  lemma InOrderIsBatchIff(w: Evidence, early: seq<int>, now: int)
    requires GovernedHorizon(w) && Rising(early, now) && MaturityAt(w) <= now
    requires forall i :: 0 <= i < |early| ==> early[i] < MaturityAt(w)
    ensures ClosedHoursInOrder(w) ==>
              (EconomicsOf(RunAll(w, Fresh, early + [now])) == EconomicsOf(RunAll(w, Fresh, [now])) <==>
                 RunAll(w, Fresh, early).entry.None? || Usable(w, now))
  {
    hide ValidEvidence, Usable, Run, RunAll, MaturityAt, Grounded, NothingSlippedIn, ClosedHoursInOrder;
    var stored := RunAll(w, Fresh, early);
    HistoryGrounded(w, early, now);
    ScheduleIsBatchIff(w, early, now, []);
    assert early + [now] + [] == early + [now];
    if stored.entry.Some? && Usable(w, now) {
      EnteredBefore(w, stored, now);
      SlippedIsLate(w, stored, now);
    }
  }

  lemma OneRun(w: Evidence, t: Trade, now: int)
    requires Run(w, t, now).Some?
    ensures RunAll(w, t, [now]) == Run(w, t, now).value
  {
    hide Run;
    assert [now][..0] == [];
    assert RunAll(w, t, []) == t;
  }
}
