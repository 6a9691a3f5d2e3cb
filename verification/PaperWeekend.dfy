/** Weekends whose candles are stored behind the week that follows them: what they do to views, entries and exits. */
module PaperWeekend {
  import opened Rows
  import opened Fills
  import opened PaperTrading
  import opened PaperEvidence
  import opened PaperScans
  import opened PaperTheorems
  import opened PaperHistory
  import opened PaperResume
  import opened PaperCoverage
  import opened PaperWitnesses
  import opened MarketCalendar
  import opened Coverage

  /** Every hour from 42 to 163, the closed ones of the weekend stored behind the others, with one candle for the hours
      in front of the weekend, one within and one behind it. */
  function LateWeekend(before: Candle, closed: Candle, behind: Candle): Evidence {
    FlatEvidence(
      41 * HOUR + 1800,
      seq(122, i =>
        HourRow(42 + i, WeekendCandle(before, closed, behind, 42 + i), if MarketIsOpen(42 + i) then 0 else 180 * HOUR)))
  }

  function WeekendCandle(before: Candle, closed: Candle, behind: Candle, hour: int): Candle {
    if hour < 113 then before else if hour < 161 then closed else behind
  }

  /** Behind the weekend's last open hour, in front of the arrival of its closed ones. */
  const OnMonday: int := 170 * HOUR

  /** What the lemmas below use of such evidence. */
  ghost predicate Weekend(w: Evidence) {
    && w.setup == Plan && w.generatedAt == 41 * HOUR + 1800 && w.reference == 17 && w.sessions == 5
    && w.runs == [IngestionRun(0, 209 * HOUR, 0)] && |w.rows| == 122
    && forall k :: 0 <= k < 122 ==>
         && w.rows[k].hour == 42 + k && ValidCandle(w.rows[k].candle)
         && w.rows[k].finishedAt == if MarketIsOpen(42 + k) then 0 else 180 * HOUR
  }

  lemma IsWeekend(before: Candle, closed: Candle, behind: Candle)
    requires ValidCandle(before) && ValidCandle(closed) && ValidCandle(behind)
    ensures Weekend(LateWeekend(before, closed, behind))
    ensures forall k :: 0 <= k < 122 ==>
              LateWeekend(before, closed, behind).rows[k].candle == WeekendCandle(before, closed, behind, 42 + k)
  {
    hide MarketIsOpen, ValidCandle;
  }

  lemma WeekendGoverned(w: Evidence)
    requires Weekend(w)
    ensures GovernedHorizon(w) && ValidEvidence(w) && IncreasingHours(w.rows)
    ensures MaturityHour(w) == 209 && MaturityAt(w) == 209 * HOUR
  {
    hide MarketIsOpen, MaturityHour, OpensDaily, ValidCandle;
    FlatMaturity(w);
  }

  lemma {:induction false} SelectIncreases(w: Evidence, rows: seq<HourRow>, asOf: int, cutoff: int)
    requires IncreasingHours(rows)
    ensures IncreasingHours(Select(w, rows, asOf, cutoff))
    ensures forall k :: 0 <= k < |Select(w, rows, asOf, cutoff)| ==> Has(rows, Select(w, rows, asOf, cutoff)[k])
  {
    hide CanSee;
    if rows != [] {
      var front, last := rows[..|rows| - 1], rows[|rows| - 1];
      assert rows == front + [last];
      HasLast(front, last);
      SelectIncreases(w, front, asOf, cutoff);
    }
  }

  lemma WeekendCovered(w: Evidence, at: int)
    requires Weekend(w) && 0 <= at
    requires Complete(Hours(VisibleRows(w, at)), 42, 164)
    requires IncreasingHours(VisibleRows(w, at)) && WholeClosures(Hours(VisibleRows(w, at)))
    requires forall k :: 0 <= k < |VisibleRows(w, at)| ==> 42 <= VisibleRows(w, at)[k].hour < 164
    ensures Usable(w, at) && LastHour(VisibleRows(w, at)) == 163
  {
    hide MarketIsOpen, NextMarketHour, VisibleRows, Complete, WholeClosures, Gapless, ValidCandle;
    var rows := VisibleRows(w, at);
    WeekendOpen();
    CompleteIsCoveredIff(41, 164, Hours(rows));
    HasHour(rows, 163);
    assert Manifest(w, 164, at) by { assert w.runs[0].to == 209 * HOUR; }
  }

  lemma WeekendOpen()
    ensures MarketIsOpen(42) && MarketIsOpen(161) && MarketIsOpen(163) && NextMarketHour(41) == 42
    ensures forall h :: 113 <= h < 161 ==> !MarketIsOpen(h)
  {
  }

  lemma HasHour(rows: seq<HourRow>, h: int)
    requires Complete(Hours(rows), 42, 164) && MarketIsOpen(h) && 42 <= h < 164 && IncreasingHours(rows)
    ensures rows != [] && h <= LastHour(rows)
  {
    assert h in Hours(rows);
  }

  /** Before the weekend is filled the view holds the open hours. */
  lemma OlderView(w: Evidence, at: int)
    requires Weekend(w) && 164 * HOUR <= at < 180 * HOUR
    ensures Usable(w, at) && LastHour(VisibleRows(w, at)) == 163
    ensures forall r :: Has(VisibleRows(w, at), r) <==> Has(w.rows, r) && MarketIsOpen(r.hour)
  {
    hide MarketIsOpen, MaturityHour, MaturityAt, NextMarketHour, VisibleRows, Usable, ValidCandle;
    WeekendGoverned(w);
    VisibleIs(w, at);
    assert IncreasingHours(VisibleRows(w, at)) by { VisibleIncreases(w, at); }
    forall h | 42 <= h < 164 && MarketIsOpen(h)
      ensures h in Hours(VisibleRows(w, at))
    {
      SeenHour(w, at, h - 42);
    }
    WeekendCovered(w, at);
  }

  lemma VisibleIncreases(w: Evidence, at: int)
    requires IncreasingHours(w.rows)
    ensures IncreasingHours(VisibleRows(w, at))
  {
    SelectIncreases(w, w.rows, at, Min(at, MaturityAt(w)));
  }

  lemma SeenHour(w: Evidence, at: int, k: nat)
    requires ValidEvidence(w) && k < |w.rows| && CanSee(w, w.rows[k], at, Min(at, MaturityAt(w)))
    ensures w.rows[k].hour in Hours(VisibleRows(w, at))
  {
    hide ValidEvidence, VisibleRows, CanSee, MaturityAt;
    VisibleIs(w, at);
    assert Has(w.rows, w.rows[k]);
    var j :| 0 <= j < |VisibleRows(w, at)| && VisibleRows(w, at)[j] == w.rows[k];
    assert Hours(VisibleRows(w, at))[j] == w.rows[k].hour;
  }

  /** Afterwards it holds every hour. */
  lemma NewerView(w: Evidence, at: int)
    requires Weekend(w) && 180 * HOUR <= at
    ensures Usable(w, at) && VisibleRows(w, at) == w.rows
  {
    hide MarketIsOpen, MaturityHour, NextMarketHour, Usable, ValidCandle;
    WeekendGoverned(w);
    SelectAll(w, w.rows, at, Min(at, MaturityAt(w)));
    assert Hours(w.rows) == seq(122, i => 42 + i);
    forall h | 42 <= h < 164
      ensures h in Hours(w.rows)
    {
      assert Hours(w.rows)[h - 42] == h;
    }
    WeekendOpen();
    WeekendCovered(w, at);
  }

  /** Between two covered views candles can slip in. */
  lemma WeekendSlipsIn(w: Evidence)
    requires Weekend(w)
    ensures GovernedHorizon(w) && Usable(w, OnMonday) && Usable(w, DayAfter) && !ClosedHoursInOrder(w)
    ensures !(VisibleRows(w, OnMonday) <= VisibleRows(w, DayAfter))
  {
    hide MarketIsOpen, NextMarketHour, VisibleRows, Usable, GovernedHorizon, ClosedHoursInOrder, ValidCandle;
    WeekendOpen();
    WeekendGoverned(w);
    OlderView(w, OnMonday);
    NewerView(w, DayAfter);
    UsableViewsExtendIff(w, OnMonday, DayAfter);
    var late := w.rows[71];
    assert late.hour == 113 && Has(VisibleRows(w, DayAfter), late) && !Has(VisibleRows(w, OnMonday), late);
    assert LateClosedCandle(w, OnMonday, DayAfter);
  }

  // ---------- an entry that would have come earlier ----------

  const High: Candle := Candle(150, 150, 150, 150, 150, 150, 150, 150)

  /** Too dear in front of the weekend, at the level from its first hour on. */
  const SlippedEntry: Evidence := LateWeekend(High, FlatCandle, FlatCandle)

  lemma SlippedEntryFills(r: HourRow)
    requires Has(SlippedEntry.rows, r)
    ensures CanFill(Plan, r) ==> r.hour >= 113
    ensures r.hour >= 113 ==> CanFill(Plan, r)
  {
    hide MarketIsOpen;
    IsWeekend(High, FlatCandle, FlatCandle);
    var k :| 0 <= k < |SlippedEntry.rows| && SlippedEntry.rows[k] == r;
  }

  /** Behind the early run a candle of the weekend is in front of the entry. */
  lemma EntryBehindWeekend(t: Trade)
    requires Weekend(SlippedEntry) && t.entry.Some?
    requires Follows(Plan, t, FullScan(Plan, VisibleRows(SlippedEntry, OnMonday)))
    ensures !NothingSlippedIn(SlippedEntry, t, DayAfter)
  {
    hide MarketIsOpen, NextMarketHour, VisibleRows, Usable, GovernedHorizon, FullScan, Weekend, MaturityAt,
      NoTouchBetween, SlippedEntry, CanFill, EntryRow, RMultiple;
    var w, rows := SlippedEntry, VisibleRows(SlippedEntry, OnMonday);
    OlderView(w, OnMonday);
    NewerView(w, DayAfter);
    WeekendGoverned(w);
    UsableIncreases(w, OnMonday);
    ScanFirstFilled(Plan, rows, OnMonday);
    var e := Entry(FullScan(Plan, rows).entryHour, FullScan(Plan, rows).fill, OnMonday);
    var row :| Has(rows, row) && EntryRow(Plan, e, row);
    assert row.hour == e.hour && CanFill(Plan, row) by { RowFills(Plan, e, row); }
    SlippedEntryFills(row);
    WeekendOpen();
    WeekendRow(w, 71);
    SlippedEntryFills(w.rows[71]);
    SlippedEntryShape();
    assert w.rows[71].hour < t.entry.value.hour;
  }

  lemma RowFills(s: Setup, e: Entry, row: HourRow)
    requires EntryRow(s, e, row)
    ensures row.hour == e.hour && CanFill(s, row)
  {
  }

  lemma WeekendRow(w: Evidence, k: nat)
    requires Weekend(w) && k < 122
    ensures |w.rows| == 122 && w.rows[k].hour == 42 + k && Has(w.rows, w.rows[k])
  {
    hide MarketIsOpen, ValidCandle;
  }

  /** The early run, which cannot see the weekend, enters behind it; the single run enters within. Both views are
      covered, and the two end differently. */
  lemma EntrySlipsIn()
    ensures GovernedHorizon(SlippedEntry) && OnMonday < MaturityAt(SlippedEntry) <= DayAfter
    ensures Usable(SlippedEntry, OnMonday) && Usable(SlippedEntry, DayAfter)
    ensures RunAll(SlippedEntry, Fresh, [OnMonday]).entry.Some?
    ensures EconomicsOf(RunAll(SlippedEntry, Fresh, [OnMonday, DayAfter])) !=
              EconomicsOf(RunAll(SlippedEntry, Fresh, [DayAfter]))
  {
    hide MarketIsOpen, NextMarketHour, VisibleRows, Usable, GovernedHorizon, RunAll, EconomicsOf, Follows, Weekend,
      MaturityAt, FirstFilled, NothingSlippedIn, SlippedEntry, Grounded;
    var w := SlippedEntry;
    assert Weekend(w) && w.setup == Plan by { SlippedEntryShape(); }
    WeekendGoverned(w);
    WeekendSlipsIn(w);
    OlderView(w, OnMonday);
    WeekendOpen();
    WeekendRow(w, 119);
    SlippedEntryFills(w.rows[119]);
    EarlyEntry(w, OnMonday, w.rows[119]);
    EntryBehindWeekend(RunAll(w, Fresh, [OnMonday]));
    ScheduleIsBatchIff(w, [OnMonday], DayAfter, []);
    assert [OnMonday] + [DayAfter] + [] == [OnMonday, DayAfter];
  }

  lemma SlippedEntryShape()
    ensures Weekend(SlippedEntry) && SlippedEntry.setup == Plan
  {
    hide Weekend;
    IsWeekend(High, FlatCandle, FlatCandle);
  }

  // ---------- an exit that would have come earlier ----------

  const Low: Candle := Candle(40, 40, 40, 40, 40, 40, 40, 40)
  const Top: Candle := Candle(200, 200, 200, 200, 200, 200, 200, 200)

  /** Entered at once, below the stop throughout the weekend, at the target behind it. */
  const SlippedExit: Evidence := LateWeekend(FlatCandle, Low, Top)

  lemma SlippedExitShape()
    ensures Weekend(SlippedExit) && SlippedExit.setup == Plan
  {
    hide Weekend;
    IsWeekend(FlatCandle, Low, Top);
  }

  lemma SlippedExitRow(r: HourRow)
    requires Has(SlippedExit.rows, r)
    ensures 42 <= r.hour < 164 && (r.hour == 42 ==> CanFill(Plan, r))
    ensures StopTouched(Plan, r.candle) <==> 113 <= r.hour < 161
    ensures TargetTouched(Plan, r.candle) <==> 161 <= r.hour
  {
    hide MarketIsOpen;
    IsWeekend(FlatCandle, Low, Top);
    var k :| 0 <= k < |SlippedExit.rows| && SlippedExit.rows[k] == r;
  }

  /** A scan of a view that holds the first hour and the first one behind the weekend books the target exactly when it
      does not hold the weekend's first hour. */
  lemma ScanSlipped(rows: seq<HourRow>)
    requires Weekend(SlippedExit) && IncreasingHours(rows)
    requires forall r :: Has(rows, r) ==> Has(SlippedExit.rows, r)
    requires Has(rows, SlippedExit.rows[0]) && Has(rows, SlippedExit.rows[119])
    requires Has(rows, SlippedExit.rows[71]) || forall r :: Has(rows, r) ==> r.hour < 113 || 161 <= r.hour
    ensures var scan := FullScan(Plan, rows);
            && scan.Closed?
            && scan.kind == if Has(rows, SlippedExit.rows[71]) then Invalidated else Target
  {
    hide MarketIsOpen, FullScan, Weekend, SlippedExit, CanFill, EntryRow, StopTouched, TargetTouched, StopFill,
      IncreasingHours;
    var scan := FullScan(Plan, rows);
    WeekendRow(SlippedExit, 0);
    WeekendRow(SlippedExit, 71);
    WeekendRow(SlippedExit, 119);
    SlippedExitRow(SlippedExit.rows[0]);
    SlippedExitRow(SlippedExit.rows[71]);
    SlippedExitRow(SlippedExit.rows[119]);
    EntersAt(rows, SlippedExit.rows[0]);
    HoldingMeans(Plan, rows, 164);
    ClosedMeans(Plan, rows);
    if scan.Closed? {
      var x :| Has(rows, x) && ClosesOn(Plan, scan, x);
      SlippedExitRow(x);
    }
  }

  lemma EntersAt(rows: seq<HourRow>, first: HourRow)
    requires IncreasingHours(rows) && Has(rows, first) && CanFill(Plan, first)
    ensures !FullScan(Plan, rows).Waiting? && FullScan(Plan, rows).entryHour <= first.hour
  {
    hide FullScan, CanFill;
    assert !NoEarlierFill(Plan, rows, first.hour + 1);
    EarlierFillEnters(Plan, rows, first.hour + 1);
  }

  /** The early run books the target, and it stands; the single run books the stop of the weekend. */
  lemma ExitSlipsIn()
    ensures GovernedHorizon(SlippedExit) && OnMonday < MaturityAt(SlippedExit) <= DayAfter
    ensures Usable(SlippedExit, OnMonday) && Usable(SlippedExit, DayAfter)
    ensures var resumed := RunAll(SlippedExit, Fresh, [OnMonday, DayAfter]);
            var batch := RunAll(SlippedExit, Fresh, [DayAfter]);
            && resumed.result.Some? && resumed.result.value.kind.Target?
            && batch.result.Some? && batch.result.value.kind.Invalidated?
  {
    hide MarketIsOpen, NextMarketHour, VisibleRows, Usable, GovernedHorizon, RunAll, Weekend, MaturityAt, SlippedExit,
      FullScan, Run, RMultiple, RiskOf, ExitRow;
    var w := SlippedExit;
    assert Weekend(w) && w.setup == Plan by { SlippedExitShape(); }
    WeekendGoverned(w);
    WeekendSlipsIn(w);
    OlderView(w, OnMonday);
    NewerView(w, DayAfter);
    UsableIncreases(w, OnMonday);
    UsableIncreases(w, DayAfter);
    WeekendOpen();
    WeekendRow(w, 0);
    WeekendRow(w, 71);
    WeekendRow(w, 119);
    SlippedExitRow(w.rows[0]);
    ScanSlipped(VisibleRows(w, OnMonday));
    ScanSlipped(VisibleRows(w, DayAfter));
    EarlyEntry(w, OnMonday, w.rows[0]);
    EarlyEntry(w, DayAfter, w.rows[0]);
    RunAllConcat(w, Fresh, [OnMonday], [DayAfter]);
    assert [OnMonday] + [DayAfter] == [OnMonday, DayAfter];
    SettledForever(w, RunAll(w, Fresh, [OnMonday]), [DayAfter]);
  }
}
