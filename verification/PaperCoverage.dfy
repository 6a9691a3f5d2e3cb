/** Which complete evidence the resolver accepts as complete, and evidence it does not accept. */
module PaperCoverage {
  import opened Rows
  import opened Fills
  import opened PaperTrading
  import opened PaperEvidence
  import opened MarketCalendar
  import opened Coverage

  /** Behind maturity, every open hour a recommendation is judged on has a candle, and one run spans the horizon. */
  ghost predicate CompleteData(w: Evidence, now: int) {
    && MaturityAt(w) <= now
    && Manifest(w, MaturityHour(w), now)
    && Complete(Hours(VisibleRows(w, now)), NextMarketHour(GeneratedHour(w)), MaturityHour(w))
  }

  lemma ViewHours(w: Evidence, now: int)
    requires ValidEvidence(w)
    ensures var hours := Hours(VisibleRows(w, now));
            NonDecreasing(hours) && forall k :: 0 <= k < |hours| ==> GeneratedHour(w) <= hours[k] < MaturityHour(w)
  {
    hide ValidEvidence, VisibleRows, MaturityHour;
    VisibleIs(w, now);
    var rows := VisibleRows(w, now);
    forall k | 0 <= k < |rows|
      ensures GeneratedHour(w) <= Hours(rows)[k] < MaturityHour(w)
    {
      HourBounds(w, rows[k], now, Min(now, MaturityAt(w)));
    }
  }

  /** Complete data is accepted exactly when an open hour is left to judge, no candle comes in front of the first of
      them, no hour appears twice, and no weekend is filled in part. */
  lemma CompleteDataCoveredIff(w: Evidence, now: int)
    requires ValidEvidence(w) && CompleteData(w, now)
    ensures var hours := Hours(VisibleRows(w, now));
            Covered(w, VisibleRows(w, now), MaturityHour(w), now) <==>
              && NextMarketHour(GeneratedHour(w)) < MaturityHour(w)
              && (forall k :: 0 <= k < |hours| ==> NextMarketHour(GeneratedHour(w)) <= hours[k])
              && Increasing(hours) && WholeClosures(hours)
  {
    hide ValidEvidence, VisibleRows, MarketIsOpen, NextMarketHour, HasCoverage, Complete, MaturityHour, Manifest,
      Hours, NonDecreasing, Increasing, WholeClosures;
    ViewHours(w, now);
    MaturityIsClose(w);
    CompleteIsCoveredIff(GeneratedHour(w), MaturityHour(w), Hours(VisibleRows(w, now)));
  }

  /** With one candle for each open hour and none for a closed one, complete data is accepted exactly when there is no
      candle of the hour of generation and generation left an open hour to judge. */
  lemma OpenDataCoveredIff(w: Evidence, now: int)
    requires ValidEvidence(w) && CompleteData(w, now)
    requires IncreasingHours(VisibleRows(w, now))
    requires forall k :: 0 <= k < |VisibleRows(w, now)| ==> MarketIsOpen(VisibleRows(w, now)[k].hour)
    ensures Covered(w, VisibleRows(w, now), MaturityHour(w), now) <==>
              && GeneratedHour(w) !in Hours(VisibleRows(w, now))
              && NextMarketHour(GeneratedHour(w)) < MaturityHour(w)
  {
    hide ValidEvidence, VisibleRows, MarketIsOpen, NextMarketHour, HasCoverage, Complete, MaturityHour, Manifest;
    ViewHours(w, now);
    MaturityIsClose(w);
    OpenHoursCoveredIff(GeneratedHour(w), MaturityHour(w), Hours(VisibleRows(w, now)));
  }

  /** A recommendation issued on the hour, whose own hour's candle exists, never has coverage: the query includes that
      candle but the coverage test expects the series to begin an hour later. */
  lemma IssuedOnTheHourIsNeverCovered(w: Evidence, row: HourRow, now: int, later: int)
    requires ValidEvidence(w) && w.generatedAt % HOUR == 0
    requires Has(w.rows, row) && row.hour == GeneratedHour(w) && CanSee(w, row, now, Min(now, MaturityAt(w)))
    requires now <= later
    ensures !Usable(w, later) && !Covered(w, VisibleRows(w, later), MaturityHour(w), later)
  {
    hide ValidEvidence, VisibleRows, MaturityAt, MaturityHour;
    VisibleIs(w, later);
    assert CanSee(w, row, later, Min(later, MaturityAt(w)));
    var rows := VisibleRows(w, later);
    var k :| 0 <= k < |rows| && rows[k] == row;
    HourBounds(w, rows[0], later, Min(later, MaturityAt(w)));
    assert rows[0].hour == row.hour;
    assert Hours(rows)[0] == row.hour;
    NextIsLeastOpen(GeneratedHour(w));
  }

  // ---------- evidence that shows it ----------

  /** A buy that fills at any price up to 100 and is never stopped or paid at a flat 100. */
  const Plan: Setup := Setup(true, AtOrBelow, 100, 200, 50)
  const FlatCandle: Candle := Candle(100, 100, 100, 100, 100, 100, 100, 100)

  function FlatRows(hours: seq<int>): seq<HourRow> {
    seq(|hours|, i requires 0 <= i < |hours| => HourRow(hours[i], FlatCandle, 0))
  }

  /** Issued behind the Monday session that ends at hour 41 and maturing a week later, at hour 209. */
  function FlatEvidence(generatedAt: int, rows: seq<HourRow>): Evidence {
    Evidence(Plan, generatedAt, 17, 5, 100, 10, rows, [IngestionRun(0, 209 * HOUR, 0)], None)
  }

  const DayAfter: int := 233 * HOUR

  lemma FlatMaturity(w: Evidence)
    requires w.reference == 17 && w.sessions == 5
    ensures MaturityHour(w) == 209 && MaturityAt(w) == 209 * HOUR && OpensDaily(17)
  {
    FiveSessionsAreAWeek(17);
  }

  lemma {:induction false} SelectAll(w: Evidence, rows: seq<HourRow>, asOf: int, cutoff: int)
    requires forall k :: 0 <= k < |rows| ==> CanSee(w, rows[k], asOf, cutoff)
    ensures Select(w, rows, asOf, cutoff) == rows
  {
    hide CanSee;
    if rows != [] {
      SelectAll(w, rows[..|rows| - 1], asOf, cutoff);
    }
  }

  /** Flat candles within the horizon are all seen. */
  lemma FlatView(generatedAt: int, hours: seq<int>)
    requires 41 * HOUR <= generatedAt < 209 * HOUR && NonDecreasing(hours)
    requires forall k :: 0 <= k < |hours| ==> generatedAt <= hours[k] * HOUR && hours[k] < 209
    ensures var w := FlatEvidence(generatedAt, FlatRows(hours));
            && GovernedHorizon(w) && MaturityAt(w) <= DayAfter && MaturityHour(w) == 209
            && Manifest(w, MaturityHour(w), DayAfter)
            && VisibleRows(w, DayAfter) == w.rows && Hours(w.rows) == hours
  {
    hide MaturityHour, NextMarketHour, OpensDaily;
    var w := FlatEvidence(generatedAt, FlatRows(hours));
    FlatMaturity(w);
    SelectAll(w, w.rows, DayAfter, 209 * HOUR);
    assert Manifest(w, 209, DayAfter) by { assert w.runs[0].to == 209 * HOUR; }
  }

  /** Complete data the coverage check rejects. */
  ghost predicate CompleteButRejected(w: Evidence, now: int) {
    GovernedHorizon(w) && CompleteData(w, now) && !Covered(w, VisibleRows(w, now), MaturityHour(w), now)
  }

  lemma RejectedHours(generatedAt: int, hours: seq<int>)
    requires 41 * HOUR <= generatedAt < 209 * HOUR && NonDecreasing(hours)
    requires forall k :: 0 <= k < |hours| ==> generatedAt <= hours[k] * HOUR && hours[k] < 209
    requires Complete(hours, NextMarketHour(generatedAt / HOUR), 209)
    ensures var first := NextMarketHour(generatedAt / HOUR);
            var w := FlatEvidence(generatedAt, FlatRows(hours));
            && GovernedHorizon(w) && CompleteData(w, DayAfter)
            && (CompleteButRejected(w, DayAfter) <==>
                  !(&& first < 209 && (forall k :: 0 <= k < |hours| ==> first <= hours[k])
                    && Increasing(hours) && WholeClosures(hours)))
  {
    hide MaturityHour, MaturityAt, NextMarketHour, MarketIsOpen, ValidEvidence, VisibleRows, Covered, Increasing,
      WholeClosures, Hours, Complete, Manifest, FlatRows;
    var w := FlatEvidence(generatedAt, FlatRows(hours));
    FlatView(generatedAt, hours);
    CompleteDataCoveredIff(w, DayAfter);
  }

  /** The registered hours from `from` to the horizon, as the witnesses need them. */
  lemma Registered(from: int, through: int)
    requires MarketIsOpen(from)
    ensures var hours := OpenHours(from, through);
            && Increasing(hours) && Ordered(hours, from, through)
            && forall h :: from <= h < through && MarketIsOpen(h) ==> h in hours
  {
    hide MarketIsOpen;
    OpenHoursAre(from, through);
    assert forall k :: 0 <= k < |OpenHours(from, through)| ==> OpenHours(from, through)[k] in OpenHours(from, through);
  }

  predicate Ordered(hours: seq<int>, from: int, through: int) {
    NonDecreasing(hours) && forall k :: 0 <= k < |hours| ==> from <= hours[k] < through && MarketIsOpen(hours[k])
  }

  lemma FirstHours()
    ensures MarketIsOpen(41) && MarketIsOpen(42) && MarketIsOpen(161) && MarketIsOpen(208) && !MarketIsOpen(130)
    ensures NextMarketHour(41) == 42 && NextMarketHour(208) == 209
    ensures forall h :: 113 <= h < 161 ==> !MarketIsOpen(h)
  {
  }

  /** Issued on the hour: its own hour's candle is one too many. */
  lemma OnTheHourRejected()
    ensures CompleteButRejected(FlatEvidence(41 * HOUR, FlatRows(OpenHours(41, 209))), DayAfter)
  {
    hide *;
    FirstHours();
    Registered(41, 209);
    OnTheHour(OpenHours(41, 209));
  }

  lemma OnTheHour(hours: seq<int>)
    requires Ordered(hours, 41, 209) && Increasing(hours)
    requires forall h :: 41 <= h < 209 && MarketIsOpen(h) ==> h in hours
    ensures CompleteButRejected(FlatEvidence(41 * HOUR, FlatRows(hours)), DayAfter)
  {
    hide MarketIsOpen, NextMarketHour, CompleteButRejected, FlatEvidence, Increasing;
    FirstHours();
    assert 41 in hours;
    RejectedHours(41 * HOUR, hours);
  }

  /** Issued in the last hour: nothing is left to judge it on. */
  lemma LastHourRejected()
    ensures CompleteButRejected(FlatEvidence(208 * HOUR + 1800, FlatRows([])), DayAfter)
  {
    hide CompleteButRejected, FlatEvidence, NextMarketHour;
    FirstHours();
    RejectedHours(208 * HOUR + 1800, []);
  }

  /** One candle in the middle of a weekend spoils the horizon. */
  lemma StrayCandleRejected()
    ensures CompleteButRejected(
              FlatEvidence(41 * HOUR + 1800, FlatRows(OpenHours(42, 113) + [130] + OpenHours(161, 209))), DayAfter)
  {
    hide *;
    FirstHours();
    Registered(42, 113);
    Registered(161, 209);
    StrayCandle(OpenHours(42, 113), OpenHours(161, 209));
  }

  lemma StrayCandle(a: seq<int>, b: seq<int>)
    requires Ordered(a, 42, 113) && Ordered(b, 161, 209)
    requires forall h :: 42 <= h < 113 && MarketIsOpen(h) ==> h in a
    requires forall h :: 161 <= h < 209 && MarketIsOpen(h) ==> h in b
    ensures CompleteButRejected(FlatEvidence(41 * HOUR + 1800, FlatRows(a + [130] + b)), DayAfter)
  {
    hide MarketIsOpen, NextMarketHour, CompleteButRejected, FlatEvidence, Increasing;
    FirstHours();
    var hours := a + [130] + b;
    assert hours[|a|] == 130 && 129 !in hours;
    RejectedHours(41 * HOUR + 1800, hours);
  }

  /** So does an hour that two datasets hold. */
  lemma TwiceStoredRejected()
    ensures CompleteButRejected(FlatEvidence(41 * HOUR + 1800, FlatRows(OpenHours(42, 209) + [208])), DayAfter)
  {
    hide *;
    FirstHours();
    Registered(42, 209);
    TwiceStored(OpenHours(42, 209));
  }

  lemma TwiceStored(all: seq<int>)
    requires Ordered(all, 42, 209)
    requires forall h :: 42 <= h < 209 && MarketIsOpen(h) ==> h in all
    ensures CompleteButRejected(FlatEvidence(41 * HOUR + 1800, FlatRows(all + [208])), DayAfter)
  {
    hide MarketIsOpen, NextMarketHour, CompleteButRejected, FlatEvidence, WholeClosures;
    FirstHours();
    assert 208 in all;
    var k :| 0 <= k < |all| && all[k] == 208;
    var hours := all + [208];
    assert hours[k] == hours[|all|];
    RejectedHours(41 * HOUR + 1800, hours);
  }

  /** And without any of that it is accepted. */
  lemma OrdinaryDataAccepted()
    ensures var w := FlatEvidence(41 * HOUR + 1800, FlatRows(OpenHours(42, 209)));
            GovernedHorizon(w) && CompleteData(w, DayAfter) && !CompleteButRejected(w, DayAfter)
  {
    hide *;
    FirstHours();
    Registered(42, 209);
    Ordinary(OpenHours(42, 209));
  }

  lemma Ordinary(hours: seq<int>)
    requires Ordered(hours, 42, 209) && Increasing(hours)
    requires forall h :: 42 <= h < 209 && MarketIsOpen(h) ==> h in hours
    ensures var w := FlatEvidence(41 * HOUR + 1800, FlatRows(hours));
            GovernedHorizon(w) && CompleteData(w, DayAfter) && !CompleteButRejected(w, DayAfter)
  {
    hide MarketIsOpen, NextMarketHour, CompleteButRejected, FlatEvidence, Increasing;
    FirstHours();
    RejectedHours(41 * HOUR + 1800, hours);
  }
}
