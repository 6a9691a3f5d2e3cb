/** One pass over all candles and a pass resumed behind a stored entry find the same trade. */
module PaperScans {
  import opened Rows
  import opened Fills
  import opened PaperTrading
  import opened PaperEvidence

  predicate CanFill(s: Setup, row: HourRow) {
    EntryFill(s, row.candle).Some?
  }

  predicate Touches(s: Setup, row: HourRow) {
    StopTouched(s, row.candle) || TargetTouched(s, row.candle)
  }

  /** The search stops at the first candle that fills the entry, and only there. */
  lemma {:induction false} FirstFillIff(s: Setup, rows: seq<HourRow>, k: nat, i: nat)
    requires k <= i < |rows|
    ensures FirstFill(s, rows, k) == Some(i) <==> CanFill(s, rows[i]) && forall j :: k <= j < i ==> !CanFill(s, rows[j])
    decreases i - k
  {
    if k < i && !CanFill(s, rows[k]) {
      FirstFillIff(s, rows, k + 1, i);
    }
  }

  lemma {:induction false} NoFillIff(s: Setup, rows: seq<HourRow>, k: nat)
    requires k <= |rows|
    ensures FirstFill(s, rows, k).None? <==> forall j :: k <= j < |rows| ==> !CanFill(s, rows[j])
    decreases |rows| - k
  {
    if k < |rows| && !CanFill(s, rows[k]) {
      NoFillIff(s, rows, k + 1);
    }
  }

  /** The exit scan closes at the first candle that touches a level: the stop wins when both are touched. */
  lemma {:induction false} ExitScanClosesIff(s: Setup, rows: seq<HourRow>, entryHour: int, fill: Fill, k: nat, x: nat)
    requires k <= x < |rows|
    requires forall j :: k <= j < x ==> !Touches(s, rows[j])
    ensures var scan := ExitScan(s, rows, entryHour, fill, k);
            && (Touches(s, rows[x]) ==>
                  scan == if StopTouched(s, rows[x].candle)
                    then Closed(
                      entryHour, fill, Invalidated, rows[x].hour, StopFill(s, rows[x].candle),
                      TargetTouched(s, rows[x].candle), false)
                    else Closed(entryHour, fill, Target, rows[x].hour, s.target, false, false))
            && (!Touches(s, rows[x]) ==> scan == ExitScan(s, rows, entryHour, fill, x + 1))
    decreases x - k
  {
    if k < x {
      assert !Touches(s, rows[k]);
      ExitScanClosesIff(s, rows, entryHour, fill, k + 1, x);
    }
  }

  /** What an exit scan found. */
  lemma {:induction false} ExitScanFinds(s: Setup, rows: seq<HourRow>, entryHour: int, fill: Fill, k: nat)
      returns (x: nat)
    requires k <= |rows|
    ensures k <= x <= |rows| && forall j :: k <= j < x ==> !Touches(s, rows[j])
    ensures x < |rows| ==> Touches(s, rows[x])
    ensures x == |rows| <==> ExitScan(s, rows, entryHour, fill, k) == Holding(entryHour, fill)
    ensures x < |rows| ==>
              var scan := ExitScan(s, rows, entryHour, fill, k); scan.Closed? && scan.exitHour == rows[x].hour
    decreases |rows| - k
  {
    if k == |rows| {
      x := k;
    } else if Touches(s, rows[k]) {
      x := k;
    } else {
      x := ExitScanFinds(s, rows, entryHour, fill, k + 1);
    }
  }

  lemma {:induction false} LocateFinds(rows: seq<HourRow>, i: nat, k: nat)
    requires IncreasingHours(rows) && k <= i < |rows|
    ensures Locate(rows, rows[i].hour, k) == Some(i)
    decreases i - k
  {
    if k < i {
      LocateFinds(rows, i, k + 1);
    }
  }

  /** More candles never change an exit already found, and otherwise leave the search where it stopped. */
  lemma ExitScanExtends(s: Setup, a: seq<HourRow>, b: seq<HourRow>, entryHour: int, fill: Fill, k: nat)
    requires a <= b && k <= |a|
    ensures ExitScan(s, a, entryHour, fill, k).Closed? ==>
              ExitScan(s, b, entryHour, fill, k) == ExitScan(s, a, entryHour, fill, k)
  {
    var x := ExitScanFinds(s, a, entryHour, fill, k);
    if x < |a| {
      ExitScanClosesIff(s, a, entryHour, fill, k, x);
      ExitScanClosesIff(s, b, entryHour, fill, k, x);
    }
  }

  lemma FirstFillExtends(s: Setup, a: seq<HourRow>, b: seq<HourRow>)
    requires a <= b
    ensures FirstFill(s, a, 0).Some? ==> FirstFill(s, b, 0) == FirstFill(s, a, 0)
  {
    var i := FirstFill(s, a, 0);
    if i.Some? {
      FirstFillIff(s, a, 0, i.value);
      FirstFillIff(s, b, 0, i.value);
    }
  }

  /** Scanning is stable under growth: a closed trade stays as it is, and a held one is exactly what resuming behind
      its stored entry makes of the longer list. */
  lemma FullScanExtends(s: Setup, a: seq<HourRow>, b: seq<HourRow>, enteredAt: int)
    requires a <= b && IncreasingHours(b)
    ensures var earlier := FullScan(s, a);
            && (earlier.Closed? ==> FullScan(s, b) == earlier)
            && (earlier.Holding? ==>
                  FullScan(s, b) == ResumedScan(s, b, Entry(earlier.entryHour, earlier.fill, enteredAt)))
  {
    var earlier := FullScan(s, a);
    FirstFillExtends(s, a, b);
    var i := FirstFill(s, a, 0);
    if i.Some? {
      var hour, fill := a[i.value].hour, EntryFill(s, a[i.value].candle).value;
      ExitScanExtends(s, a, b, hour, fill, i.value + 1);
      LocateFinds(b, i.value, 0);
      assert earlier.Holding? ==> earlier == Holding(hour, fill) by {
        var x := ExitScanFinds(s, a, hour, fill, i.value + 1);
      }
    }
  }

  /** A scan's entry was filled by one of its candles. */
  lemma ScanEntryIsFill(s: Setup, rows: seq<HourRow>) returns (i: nat)
    requires !FullScan(s, rows).Waiting?
    ensures i < |rows| && FirstFill(s, rows, 0) == Some(i)
    ensures EntryFill(s, rows[i].candle) == Some(FullScan(s, rows).fill)
    ensures rows[i].hour == FullScan(s, rows).entryHour
  {
    i := FirstFill(s, rows, 0).value;
    var x := ExitScanFinds(s, rows, rows[i].hour, EntryFill(s, rows[i].candle).value, i + 1);
    if x < |rows| {
      ExitScanClosesIff(s, rows, rows[i].hour, EntryFill(s, rows[i].candle).value, i + 1, x);
    }
  }

  lemma ScanRisk(s: Setup, rows: seq<HourRow>)
    requires ValidSetup(s) && forall k :: 0 <= k < |rows| ==> ValidCandle(rows[k].candle)
    ensures !FullScan(s, rows).Waiting? ==> RiskOf(s, FullScan(s, rows).fill.price) > 0
  {
    if !FullScan(s, rows).Waiting? {
      var i := ScanEntryIsFill(s, rows);
      FillNeverBetter(s, rows[i].candle);
    }
  }

  /** What a closed scan says about the candle it closed on: the stop counts on any candle, the target only where the
      stop was not touched and, on the entry candle, only behind a fill at the open. */
  predicate ClosesOn(s: Setup, scan: Scan, x: HourRow)
    requires scan.Closed?
  {
    && x.hour == scan.exitHour
    && scan.onEntryCandle == (scan.exitHour == scan.entryHour)
    && scan.ambiguous == (StopTouched(s, x.candle) && TargetTouched(s, x.candle))
    && if scan.kind.Invalidated? then StopTouched(s, x.candle) && scan.price == StopFill(s, x.candle)
       else
         && scan.kind.Target? && !StopTouched(s, x.candle) && TargetTouched(s, x.candle) && scan.price == s.target
         && (scan.onEntryCandle ==> scan.fill.atOpen)
  }

  /** No candle from the entry up to hour `end` touched the stop, and none behind the entry touched the target. */
  ghost predicate QuietUntil(s: Setup, rows: seq<HourRow>, scan: Scan, end: int)
    requires !scan.Waiting?
  {
    forall r :: Has(rows, r) && scan.entryHour <= r.hour < end ==>
      && !StopTouched(s, r.candle)
      && (TargetTouched(s, r.candle) ==> r.hour == scan.entryHour && !scan.fill.atOpen)
  }

  /** A scan closed on the first candle of the list that allows it. */
  ghost predicate Booked(s: Setup, rows: seq<HourRow>, scan: Scan)
    requires scan.Closed?
  {
    && scan.entryHour <= scan.exitHour && QuietUntil(s, rows, scan, scan.exitHour)
    && exists x :: Has(rows, x) && ClosesOn(s, scan, x)
  }

  /** A target is only booked when no candle from the entry to the exit touched the stop; a stop is only booked on a
      candle that touched it; and either is booked on the first candle that allows it. */
  lemma ClosedMeans(s: Setup, rows: seq<HourRow>)
    requires IncreasingHours(rows)
    ensures FullScan(s, rows).Closed? ==> Booked(s, rows, FullScan(s, rows))
  {
    var scan := FullScan(s, rows);
    if scan.Closed? {
      var i := ScanEntryIsFill(s, rows);
      if LeavesOpen(s, rows[i].candle, scan.fill) {
        BehindEntry(s, rows, i, scan.fill, scan.exitHour);
      } else {
        assert Has(rows, rows[i]) && ClosesOn(s, scan, rows[i]);
      }
    }
  }

  /** The candle of the entry does not close the position. */
  predicate LeavesOpen(s: Setup, c: Candle, fill: Fill) {
    !StopTouched(s, c) && !(TargetTouched(s, c) && fill.atOpen)
  }

  /** What the search behind an entry that stays open finds. */
  lemma BehindEntry(s: Setup, rows: seq<HourRow>, i: nat, fill: Fill, end: int)
    requires IncreasingHours(rows) && i < |rows| && LeavesOpen(s, rows[i].candle, fill)
    ensures var scan := ExitScan(s, rows, rows[i].hour, fill, i + 1);
            && !scan.Waiting? && scan.entryHour == rows[i].hour && scan.fill == fill
            && (scan.Holding? ==> QuietUntil(s, rows, scan, end))
            && (scan.Closed? ==> Booked(s, rows, scan))
  {
    hide StopTouched, TargetTouched, IncreasingHours;
    var hour := rows[i].hour;
    var scan := ExitScan(s, rows, hour, fill, i + 1);
    var x := ExitScanFinds(s, rows, hour, fill, i + 1);
    if x < |rows| {
      ExitScanClosesIff(s, rows, hour, fill, i + 1, x);
      Behind(rows, i, x);
      assert Has(rows, rows[x]) && ClosesOn(s, scan, rows[x]);
    }
    var until := if x < |rows| then rows[x].hour else end;
    forall r | Has(rows, r) && hour <= r.hour < until
      ensures !StopTouched(s, r.candle)
      ensures TargetTouched(s, r.candle) ==> r.hour == hour && !fill.atOpen
    {
      var j :| 0 <= j < |rows| && rows[j] == r;
      Behind(rows, j, i);
      Behind(rows, i, j);
      if x < |rows| { Behind(rows, x, j); }
      assert i <= j && (j == i || !Touches(s, rows[j]));
    }
    assert QuietUntil(s, rows, scan, until);
  }

  lemma Behind(rows: seq<HourRow>, i: nat, j: nat)
    requires IncreasingHours(rows) && i < |rows| && j < |rows|
    ensures i < j <==> rows[i].hour < rows[j].hour
    ensures i == j <==> rows[i].hour == rows[j].hour
  {
  }

  /** A position is still held only when no candle of the list closes it. */
  lemma HoldingMeans(s: Setup, rows: seq<HourRow>, end: int)
    requires IncreasingHours(rows)
    ensures FullScan(s, rows).Holding? ==> QuietUntil(s, rows, FullScan(s, rows), end)
  {
    var scan := FullScan(s, rows);
    if scan.Holding? {
      var i := ScanEntryIsFill(s, rows);
      BehindEntry(s, rows, i, scan.fill, end);
    }
  }

  // ---------- resuming behind a stored entry ----------

  /** The candle a stored entry was filled on. */
  predicate EntryRow(s: Setup, e: Entry, row: HourRow) {
    row.hour == e.hour && EntryFill(s, row.candle) == Some(e.fill)
  }

  /** The entry was filled on the first candle of the list that fills it. */
  ghost predicate FirstFilled(s: Setup, rows: seq<HourRow>, e: Entry) {
    (exists row :: Has(rows, row) && EntryRow(s, e, row)) && NoEarlierFill(s, rows, e.hour)
  }

  ghost predicate NoEarlierFill(s: Setup, rows: seq<HourRow>, hour: int) {
    forall r :: Has(rows, r) && r.hour < hour ==> !CanFill(s, r)
  }

  ghost predicate NoTouchBetween(s: Setup, rows: seq<HourRow>, from: int, to: int) {
    forall r :: Has(rows, r) && from < r.hour < to ==> !Touches(s, r)
  }

  lemma ScanFirstFilled(s: Setup, rows: seq<HourRow>, now: int)
    requires IncreasingHours(rows) && !FullScan(s, rows).Waiting?
    ensures FirstFilled(s, rows, Entry(FullScan(s, rows).entryHour, FullScan(s, rows).fill, now))
  {
    hide IncreasingHours, CanFill, FullScan;
    var i := ScanEntryIsFill(s, rows);
    assert CanFill(s, rows[i]) by { assert EntryFill(s, rows[i].candle).Some?; CanFillIff(s, rows[i]); }
    FirstFillIff(s, rows, 0, i);
    assert Has(rows, rows[i]);
    forall r | Has(rows, r) && r.hour < rows[i].hour
      ensures !CanFill(s, r)
    {
      var j :| 0 <= j < |rows| && rows[j] == r;
      Behind(rows, j, i);
    }
  }

  lemma CanFillIff(s: Setup, row: HourRow)
    ensures CanFill(s, row) <==> EntryFill(s, row.candle).Some?
  {
  }

  /** Resuming behind an entry that stays open searches the candles behind it. */
  lemma ResumedIs(s: Setup, rows: seq<HourRow>, e: Entry, i: nat)
    requires IncreasingHours(rows) && i < |rows| && EntryRow(s, e, rows[i])
    ensures ResumedScan(s, rows, e) == ExitScan(s, rows, rows[i].hour, e.fill, i + 1)
  {
    LocateFinds(rows, i, 0);
  }

  lemma FirstIs(s: Setup, rows: seq<HourRow>, e: Entry, i: nat)
    requires IncreasingHours(rows) && i < |rows| && EntryRow(s, e, rows[i]) && NoEarlierFill(s, rows, e.hour)
    ensures FirstFill(s, rows, 0) == Some(i)
  {
    forall j | 0 <= j < i
      ensures !CanFill(s, rows[j])
    {
      assert Has(rows, rows[j]);
    }
    FirstFillIff(s, rows, 0, i);
  }

  /** With nothing to fill in front of the entry, scanning everything again is resuming behind it. */
  lemma FullIsResumed(s: Setup, rows: seq<HourRow>, e: Entry, i: nat)
    requires IncreasingHours(rows) && i < |rows| && EntryRow(s, e, rows[i])
    requires LeavesOpen(s, rows[i].candle, e.fill) && NoEarlierFill(s, rows, e.hour)
    ensures FullScan(s, rows) == ResumedScan(s, rows, e)
  {
    hide IncreasingHours, ResumedScan;
    FirstIs(s, rows, e, i);
    ResumedIs(s, rows, e, i);
  }

  /** A candle in front of the entry that fills it makes a full scan enter earlier. */
  lemma EarlierFillEnters(s: Setup, rows: seq<HourRow>, hour: int)
    requires IncreasingHours(rows) && !NoEarlierFill(s, rows, hour)
    ensures !FullScan(s, rows).Waiting? && FullScan(s, rows).entryHour < hour
  {
    hide FullScan, IncreasingHours;
    var r :| Has(rows, r) && r.hour < hour && CanFill(s, r);
    var j :| 0 <= j < |rows| && rows[j] == r;
    NoFillIff(s, rows, 0);
    assert !FullScan(s, rows).Waiting? by { FoundEnters(s, rows); }
    var i := ScanEntryIsFill(s, rows);
    FirstFillIff(s, rows, 0, i);
    Behind(rows, j, i);
    CanFillIff(s, rows[i]);
  }

  lemma FoundEnters(s: Setup, rows: seq<HourRow>)
    ensures FullScan(s, rows).Waiting? <==> FirstFill(s, rows, 0).None?
  {
    var i := FirstFill(s, rows, 0);
    if i.Some? {
      var x := ExitScanFinds(s, rows, rows[i.value].hour, EntryFill(s, rows[i.value].candle).value, i.value + 1);
    }
  }

  /** A booked exit is what a full scan of a longer list finds, when nothing slipped in front of it. */
  lemma FullIsBooked(s: Setup, rows: seq<HourRow>, e: Entry, i: nat, scan: Scan, x: HourRow)
    requires IncreasingHours(rows) && i < |rows| && EntryRow(s, e, rows[i]) && NoEarlierFill(s, rows, e.hour)
    requires scan.Closed? && scan.entryHour == e.hour && scan.fill == e.fill
    requires Has(rows, x) && ClosesOn(s, scan, x) && e.hour <= scan.exitHour
    requires e.hour < scan.exitHour ==> LeavesOpen(s, rows[i].candle, e.fill)
    requires NoTouchBetween(s, rows, e.hour, scan.exitHour)
    ensures FullScan(s, rows) == scan
  {
    hide IncreasingHours, StopTouched, TargetTouched, StopFill;
    FirstIs(s, rows, e, i);
    var k :| 0 <= k < |rows| && rows[k] == x;
    Behind(rows, i, k);
    if i < k {
      forall j | i + 1 <= j < k
        ensures !Touches(s, rows[j])
      {
        assert Has(rows, rows[j]);
        Behind(rows, i, j);
        Behind(rows, j, k);
      }
      ExitScanClosesIff(s, rows, e.hour, e.fill, i + 1, k);
    }
  }

  /** A candle that touches a level between entry and exit makes a full scan leave earlier. */
  lemma EarlierTouchCloses(s: Setup, rows: seq<HourRow>, e: Entry, i: nat, end: int)
    requires IncreasingHours(rows) && i < |rows| && EntryRow(s, e, rows[i]) && NoEarlierFill(s, rows, e.hour)
    requires !NoTouchBetween(s, rows, e.hour, end)
    ensures FullScan(s, rows).Closed? && FullScan(s, rows).exitHour < end
  {
    hide IncreasingHours, StopTouched, TargetTouched, StopFill;
    FirstIs(s, rows, e, i);
    var r :| Has(rows, r) && e.hour < r.hour < end && Touches(s, r);
    var k :| 0 <= k < |rows| && rows[k] == r;
    Behind(rows, i, k);
    var x := ExitScanFinds(s, rows, e.hour, e.fill, i + 1);
    assert x <= k;
    Behind(rows, x, k);
  }
}
