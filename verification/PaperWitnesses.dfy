/** Concrete trades for which the exceptions in the theorems about runs are real. */
module PaperWitnesses {
  import opened Rows
  import opened Fills
  import opened PaperTrading
  import opened PaperEvidence
  import opened PaperScans
  import opened PaperTheorems
  import opened PaperHistory
  import opened PaperResume
  import opened PaperCoverage
  import opened MarketCalendar
  import opened Coverage
  import Lifecycle

  // ---------- coverage lost behind a stored entry ----------

  /** What a lost final view comes to: the stored trade keeps an exit it has booked and otherwise ends as missing data,
      and a single run ends as expired unobserved. */
  lemma LostCoverageOutcome(w: Evidence, stored: Trade, now: int, shared: Option<Resolution>)
    requires !Usable(w, now) && MaturityAt(w) <= now && Immature(stored) && stored.entry.Some?
    requires Run(w, stored.(shared := shared), now).Some? && Run(w, Fresh.(shared := shared), now).Some?
    ensures var resumed := Run(w, stored.(shared := shared), now).value;
            var batch := Run(w, Fresh.(shared := shared), now).value;
            && resumed.result == stored.result
            && (ClosedByCandle(stored) ==> resumed.fact.None?)
            && (!ClosedByCandle(stored) ==>
                resumed.fact == Some(Fact(Lifecycle.MissingData, HourlyCoverage, false, now)))
            && batch.result.None? && batch.fact == Some(Fact(Lifecycle.ExpiredUnobserved, HourlyCoverage, false, now))
  {
    hide Usable, MaturityAt, ResolveTarget, ValidResolution, Covered, EvidenceRows;
  }

  /** Candles at hours 42 and 50 and a manifest up to hour 43: covered at first, never again. */
  const Gapped: Evidence :=
    Evidence(Plan, 41 * HOUR + 1800, 17, 5, 100, 10, FlatRows([42, 50]), [IngestionRun(0, 43 * HOUR, 0)], None)

  const Early: int := 43 * HOUR + 10

  lemma GappedTimes()
    ensures GovernedHorizon(Gapped) && MaturityAt(Gapped) == 209 * HOUR
    ensures Gapped.rows == [HourRow(42, FlatCandle, 0), HourRow(50, FlatCandle, 0)]
  {
    hide MaturityHour, OpensDaily, MarketIsOpen, MaturityAt;
    FlatMaturity(Gapped);
    assert MarketIsOpen(42) && MarketIsOpen(50) by { WeekHour(42); WeekHour(50); }
  }

  lemma GappedViews()
    ensures GovernedHorizon(Gapped) && Early < MaturityAt(Gapped) <= DayAfter
    ensures Hours(VisibleRows(Gapped, Early)) == [42] && VisibleRows(Gapped, Early)[0].candle == FlatCandle
    ensures Hours(VisibleRows(Gapped, DayAfter)) == [42, 50]
  {
    hide MaturityAt, GovernedHorizon;
    GappedTimes();
    var rows := Gapped.rows;
    TwoRows(Gapped, rows[0], rows[1], Early, Min(Early, MaturityAt(Gapped)));
    TwoRows(Gapped, rows[0], rows[1], DayAfter, Min(DayAfter, MaturityAt(Gapped)));
  }

  lemma TwoRows(w: Evidence, first: HourRow, second: HourRow, asOf: int, cutoff: int)
    requires CanSee(w, first, asOf, cutoff)
    ensures Select(w, [first, second], asOf, cutoff) ==
              if CanSee(w, second, asOf, cutoff) then [first, second] else [first]
  {
    hide CanSee;
    assert [first, second][..1] == [first] && [first][..0] == [];
    assert Select(w, [first], asOf, cutoff) == [first];
  }

  lemma GappedUsable()
    ensures Usable(Gapped, Early) && !Usable(Gapped, DayAfter)
  {
    hide MaturityHour, MaturityAt, NextMarketHour, MarketIsOpen, VisibleRows, ValidEvidence;
    GappedViews();
    FirstHours();
    NextIsLeastOpen(42);
    assert Manifest(Gapped, 43, Early) by { assert Gapped.runs[0].to == 43 * HOUR; }
    assert !Gapless([42, 50]) by { assert [42, 50][1] - [42, 50][0] == 8; }
  }

  lemma GappedEntry()
    ensures RunAll(Gapped, Fresh, [Early]).entry.Some?
  {
    hide VisibleRows, Usable, ValidEvidence, MaturityAt, FullScan, Run, TradeOk, MarketIsOpen;
    GappedViews();
    GappedUsable();
    EarlyEntry(Gapped, Early, VisibleRows(Gapped, Early)[0]);
  }

  /** An early run stores the entry that its covered view shows. */
  lemma EarlyEntry(w: Evidence, at: int, row: HourRow)
    requires GovernedHorizon(w) && Usable(w, at) && Has(VisibleRows(w, at), row) && CanFill(w.setup, row)
    ensures Run(w, Fresh, at).Some? && RunAll(w, Fresh, [at]) == Run(w, Fresh, at).value
    ensures Follows(w.setup, RunAll(w, Fresh, [at]), FullScan(w.setup, VisibleRows(w, at)))
    ensures RunAll(w, Fresh, [at]).entry.Some?
  {
    hide VisibleRows, Usable, ValidEvidence, FullScan, Run, RunAll, TradeOk, CanFill;
    FreshGrounded(w, at);
    BatchFollows(w, Fresh, at);
    OneRun(w, Fresh, at);
    WaitingMeansNothingFills(w, at);
    var k :| 0 <= k < |VisibleRows(w, at)| && VisibleRows(w, at)[k] == row;
  }

  /** The entry is stored while the data is complete, coverage is gone at maturity, and resuming and a single run
      disagree. */
  lemma ResumeIsNotBatch()
    ensures GovernedHorizon(Gapped) && Early < MaturityAt(Gapped) <= DayAfter
    ensures RunAll(Gapped, Fresh, [Early]).entry.Some? && !Usable(Gapped, DayAfter)
    ensures EconomicsOf(RunAll(Gapped, Fresh, [Early, DayAfter])) != EconomicsOf(RunAll(Gapped, Fresh, [DayAfter]))
  {
    hide GovernedHorizon, Usable, RunAll, MaturityAt, EconomicsOf;
    GappedViews();
    GappedUsable();
    GappedEntry();
    ScheduleIsBatchIff(Gapped, [Early], DayAfter, []);
    assert [Early] + [DayAfter] + [] == [Early, DayAfter];
  }

  // ---------- the fourteen-day branch ----------

  /** Twenty sessions and no market data. */
  const Distant: Evidence := Evidence(Plan, 41 * HOUR + 1800, 17, 20, 100, 10, [], [], None)

  const FifteenDaysOn: int := 41 * HOUR + 1800 + 15 * 24 * HOUR

  lemma LongHorizonIsRefused()
    ensures ValidEvidence(Distant) && Run(Distant, Fresh, FifteenDaysOn).None?
  {
    hide MarketIsOpen, Run, ScanFor, MaturityHour;
    assert OpensDaily(17);
    EndpointOnGrid(17, 20);
    assert MaturityHour(Distant) >= 521 by { MaturityOf(Distant); }
    FreshGrounded(Distant, FifteenDaysOn);
    RunRefusedIff(Distant, Fresh, FifteenDaysOn);
    assert ScanFor(Distant.setup, [], None) == Waiting by { NoScan(Distant.setup); }
  }

  lemma MaturityOf(w: Evidence)
    ensures MaturityHour(w) == TargetEndpoint(w.reference, w.sessions) + 24
  {
  }

  lemma NoScan(s: Setup)
    ensures ScanFor(s, [], None) == Waiting
  {
  }
}
