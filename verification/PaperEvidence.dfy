/** Which candles a run can see, and how the views of successive runs relate. */
module PaperEvidence {
  import opened Rows
  import opened Fills
  import opened MarketCalendar
  import opened PaperTrading
  import Coverage

  predicate IncreasingHours(rows: seq<HourRow>) {
    forall i, j :: 0 <= i < j < |rows| ==> rows[i].hour < rows[j].hour
  }

  /** The order rows come back in; an hour may appear twice when a second dataset also holds it. */
  predicate OrderedHours(rows: seq<HourRow>) {
    forall i, j :: 0 <= i < j < |rows| ==> rows[i].hour <= rows[j].hour
  }

  /** What the tables and issuance guarantee: valid candles in timestamp order, and a recommendation issued behind its
      reference session and before its target matures. */
  ghost predicate ValidEvidence(w: Evidence) {
    && ValidSetup(w.setup)
    && OpensDaily(w.reference)
    && DailyCompletion(w.reference) * HOUR <= w.generatedAt < MaturityAt(w)
    && OrderedHours(w.rows)
    && forall k :: 0 <= k < |w.rows| ==> ValidCandle(w.rows[k].candle)
  }

  /** No candle of a closed hour, which ingestion stores as well, arrives behind a candle of a later hour: the provider
      sends none, or sends them in order. Only what follows from it is proved with it. */
  ghost predicate ClosedHoursInOrder(w: Evidence) {
    forall i, j ::
      0 <= i < |w.rows| && 0 <= j < |w.rows| && w.rows[i].hour < w.rows[j].hour && !MarketIsOpen(w.rows[i].hour)
      ==> w.rows[i].finishedAt <= w.rows[j].finishedAt
  }

  /** The governed horizon. */
  ghost predicate GovernedHorizon(w: Evidence) {
    ValidEvidence(w) && w.sessions == 5
  }

  predicate Has(rows: seq<HourRow>, row: HourRow) {
    exists k :: 0 <= k < |rows| && rows[k] == row
  }

  lemma HasLast(rows: seq<HourRow>, last: HourRow)
    ensures forall r :: Has(rows + [last], r) <==> Has(rows, r) || r == last
  {
    forall r
      ensures Has(rows + [last], r) <==> Has(rows, r) || r == last
    {
      if Has(rows, r) {
        var k :| 0 <= k < |rows| && rows[k] == r;
        assert (rows + [last])[k] == r;
      }
      assert (rows + [last])[|rows|] == last;
    }
  }

  lemma OrderedLast(rows: seq<HourRow>, last: HourRow)
    requires OrderedHours(rows) && forall r :: Has(rows, r) ==> r.hour <= last.hour
    ensures OrderedHours(rows + [last])
  {
    forall k | 0 <= k < |rows|
      ensures rows[k].hour <= last.hour
    {
      assert Has(rows, rows[k]);
    }
  }

  /** The query keeps the visible rows, all of them and in order. */
  lemma {:induction false} SelectIs(w: Evidence, rows: seq<HourRow>, asOf: int, cutoff: int)
    requires OrderedHours(rows)
    ensures var s := Select(w, rows, asOf, cutoff);
            && OrderedHours(s) && |s| <= |rows|
            && (forall r :: Has(s, r) <==> Has(rows, r) && CanSee(w, r, asOf, cutoff))
  {
    hide CanSee, OrderedHours;
    if rows != [] {
      var front, last := rows[..|rows| - 1], rows[|rows| - 1];
      assert rows == front + [last];
      FrontOrdered(rows);
      HasLast(front, last);
      SelectIs(w, front, asOf, cutoff);
      var rest := Select(w, front, asOf, cutoff);
      HasLast(rest, last);
      OrderedLast(rest, last);
    }
  }

  lemma FrontOrdered(rows: seq<HourRow>)
    requires OrderedHours(rows) && rows != []
    ensures OrderedHours(rows[..|rows| - 1])
    ensures forall r :: Has(rows[..|rows| - 1], r) ==> r.hour <= rows[|rows| - 1].hour
  {
  }

  lemma VisibleIs(w: Evidence, now: int)
    requires ValidEvidence(w)
    ensures var s := VisibleRows(w, now);
            && OrderedHours(s)
            && (forall r :: Has(s, r) <==> Has(w.rows, r) && CanSee(w, r, now, Min(now, MaturityAt(w))))
            && (forall k :: 0 <= k < |s| ==> Has(w.rows, s[k]) && CanSee(w, s[k], now, Min(now, MaturityAt(w))))
            && (forall k :: 0 <= k < |s| ==> ValidCandle(s[k].candle))
  {
    hide CanSee, MarketIsOpen, ValidCandle;
    SelectIs(w, w.rows, now, Min(now, MaturityAt(w)));
    var s := VisibleRows(w, now);
    forall k | 0 <= k < |s|
      ensures Has(w.rows, s[k]) && CanSee(w, s[k], now, Min(now, MaturityAt(w))) && ValidCandle(s[k].candle)
    {
      assert Has(s, s[k]);
      var j :| 0 <= j < |w.rows| && w.rows[j] == s[k];
    }
  }

  /** Time only adds candles. */
  lemma VisibleGrows(w: Evidence, older: int, newer: int)
    requires ValidEvidence(w) && older <= newer
    ensures forall k :: 0 <= k < |VisibleRows(w, older)| ==> Has(VisibleRows(w, newer), VisibleRows(w, older)[k])
  {
    hide MarketIsOpen, ValidCandle, MaturityAt, Has, VisibleRows;
    VisibleIs(w, older);
    VisibleIs(w, newer);
    forall k | 0 <= k < |VisibleRows(w, older)|
      ensures Has(VisibleRows(w, newer), VisibleRows(w, older)[k])
    {
      var r := VisibleRows(w, older)[k];
      assert CanSee(w, r, older, Min(older, MaturityAt(w)));
      assert CanSee(w, r, newer, Min(newer, MaturityAt(w)));
    }
  }

  /** The hours a recommendation can be judged on lie between its generation and its maturity. */
  lemma HourBounds(w: Evidence, row: HourRow, asOf: int, cutoff: int)
    requires CanSee(w, row, asOf, cutoff)
    ensures GeneratedHour(w) <= row.hour && (row.hour + 1) * HOUR <= cutoff
    ensures w.generatedAt % HOUR != 0 ==> GeneratedHour(w) < row.hour
  {
    assert w.generatedAt == GeneratedHour(w) * HOUR + w.generatedAt % HOUR;
  }

  lemma MaturityIsClose(w: Evidence)
    requires ValidEvidence(w)
    ensures OpensDaily(TargetEndpoint(w.reference, w.sessions)) && MarketIsOpen(MaturityHour(w) - 1)
  {
    EndpointOnGrid(w.reference, w.sessions);
    var e := TargetEndpoint(w.reference, w.sessions);
    DailySlots(e);
    Shift(e, 23);
    WeekHour(e + 23);
  }

  /** Nothing proves coverage of the whole horizon before the horizon is over. */
  lemma ImmatureIsUncovered(w: Evidence, now: int)
    requires ValidEvidence(w) && now < MaturityAt(w)
    ensures !Covered(w, VisibleRows(w, now), MaturityHour(w), now)
  {
    hide MarketIsOpen, ValidCandle, Has, VisibleRows, MaturityHour;
    var rows := VisibleRows(w, now);
    if rows != [] {
      VisibleIs(w, now);
      MaturityIsClose(w);
      var last := rows[|rows| - 1];
      HourBounds(w, last, now, Min(now, MaturityAt(w)));
      assert last.hour + 1 < MaturityHour(w);
      NextIsLeastOpen(last.hour);
    }
  }

  /** A view that passes the coverage check holds each hour once. */
  lemma CoveredIncreases(w: Evidence, now: int, through: int)
    requires ValidEvidence(w) && Covered(w, VisibleRows(w, now), through, now)
    ensures IncreasingHours(VisibleRows(w, now))
  {
    hide ValidEvidence, VisibleRows, MarketIsOpen, NextMarketHour;
    VisibleIs(w, now);
    var rows := VisibleRows(w, now);
    Coverage.GaplessIncreases(Hours(rows));
    forall i, j | 0 <= i < j < |rows|
      ensures rows[i].hour < rows[j].hour
    {
      assert Hours(rows)[i] < Hours(rows)[j];
    }
  }

  lemma UsableIncreases(w: Evidence, now: int)
    requires ValidEvidence(w) && Usable(w, now)
    ensures IncreasingHours(VisibleRows(w, now))
  {
    hide ValidEvidence, VisibleRows, Covered;
    var rows := VisibleRows(w, now);
    if rows != [] {
      CoveredIncreases(w, now, LastHour(rows) + 1);
    }
  }

  lemma WithinBound(w: Evidence)
    requires GovernedHorizon(w)
    ensures MaturityHour(w) <= Coverage.CloseAfter(NextMarketHour(GeneratedHour(w))) + 216
  {
    hide NextMarketHour, Coverage.CloseAfter;
    Coverage.FiveSessionWindowIsTrustworthy(w.reference, GeneratedHour(w));
    NextIsLeastOpen(GeneratedHour(w));
    Coverage.CloseAfterIs(NextMarketHour(GeneratedHour(w)));
  }

  /** A view that passes the coverage check starts at the next market hour and misses no open hour up to its last. */
  lemma UsableIsComplete(w: Evidence, now: int)
    requires GovernedHorizon(w) && Usable(w, now) && VisibleRows(w, now) != []
    ensures VisibleRows(w, now)[0].hour == NextMarketHour(GeneratedHour(w))
    ensures Coverage.Complete(
              Hours(VisibleRows(w, now)), NextMarketHour(GeneratedHour(w)), LastHour(VisibleRows(w, now)) + 1)
  {
    hide ValidEvidence, MarketIsOpen, Has, VisibleRows, Manifest, NextMarketHour, Coverage.CloseAfter, CanSee,
      MaturityHour, Coverage.Gapless;
    var rows := VisibleRows(w, now);
    var hours := Hours(rows);
    VisibleIs(w, now);
    UsableIncreases(w, now);
    HourBounds(w, rows[|rows| - 1], now, Min(now, MaturityAt(w)));
    WithinBound(w);
    Coverage.GaplessIsComplete(hours, LastHour(rows) + 1);
  }

  /** In a list of increasing hours an hour names one row. */
  lemma SameHour(rows: seq<HourRow>, p: HourRow, q: HourRow)
    requires IncreasingHours(rows) && Has(rows, p) && Has(rows, q) && p.hour == q.hour
    ensures p == q
  {
    var i :| 0 <= i < |rows| && rows[i] == p;
    var j :| 0 <= j < |rows| && rows[j] == q;
  }

  lemma LastCarries(a: seq<HourRow>, b: seq<HourRow>)
    requires a != [] && OrderedHours(b) && Has(b, a[|a| - 1])
    ensures b != [] && LastHour(a) <= LastHour(b)
  {
    var k :| 0 <= k < |b| && b[k] == a[|a| - 1];
  }

  /** `a` is the part of `b` up to the last hour of `a`. */
  ghost predicate Initial(a: seq<HourRow>, b: seq<HourRow>) {
    && (forall r :: Has(a, r) ==> Has(b, r))
    && (forall r :: Has(b, r) && r.hour <= LastHour(a) ==> Has(a, r))
  }

  lemma {:induction false} InitialIsPrefix(a: seq<HourRow>, b: seq<HourRow>, n: nat)
    requires IncreasingHours(a) && IncreasingHours(b) && Initial(a, b) && n <= |a|
    ensures n <= |b| && a[..n] == b[..n]
  {
    if n > 0 {
      var k := n - 1;
      InitialIsPrefix(a, b, k);
      NextAgrees(a, b, k);
      assert a[..n] == a[..k] + [a[k]] && b[..n] == b[..k] + [b[k]];
    }
  }

  lemma NextAgrees(a: seq<HourRow>, b: seq<HourRow>, k: nat)
    requires IncreasingHours(a) && IncreasingHours(b) && Initial(a, b) && k < |a| && k <= |b| && a[..k] == b[..k]
    ensures k < |b| && a[k] == b[k]
  {
    assert Has(a, a[k]);
    var j :| 0 <= j < |b| && b[j] == a[k];
    BehindPrefix(a, b, k, j);
    assert a[k].hour <= LastHour(a);
    assert Has(b, b[k]);
    var i :| 0 <= i < |a| && a[i] == b[k];
    BehindPrefix(b, a, k, i);
  }

  lemma BehindPrefix(a: seq<HourRow>, b: seq<HourRow>, k: nat, j: nat)
    requires IncreasingHours(a) && k < |a| && k <= |b| && a[..k] == b[..k] && j < |b| && b[j] == a[k]
    ensures k <= j
  {
  }

  /** A candle of a closed hour came in between the two views, in front of the last hour of the first. */
  ghost predicate LateClosedCandle(w: Evidence, older: int, newer: int) {
    exists r :: Has(VisibleRows(w, newer), r) && !Has(VisibleRows(w, older), r) && !MarketIsOpen(r.hour)
                && r.hour < LastHour(VisibleRows(w, older))
  }

  /** Views that pass the coverage check extend each other, exactly unless a late candle of a closed hour slips in; none
      does when closed hours arrive in order. */
  lemma UsableViewsExtendIff(w: Evidence, older: int, newer: int)
    requires GovernedHorizon(w) && older <= newer && Usable(w, older) && Usable(w, newer)
    ensures VisibleRows(w, older) <= VisibleRows(w, newer) <==>
        VisibleRows(w, older) == [] || !LateClosedCandle(w, older, newer)
    ensures ClosedHoursInOrder(w) ==> VisibleRows(w, older) <= VisibleRows(w, newer)
  {
    hide MarketIsOpen, VisibleRows, Usable, NextMarketHour, CanSee, ValidEvidence, ClosedHoursInOrder;
    var a, b := VisibleRows(w, older), VisibleRows(w, newer);
    if a != [] {
      NothingLate(w, older, newer);
      UsableIncreases(w, older);
      UsableIncreases(w, newer);
      VisibleGrows(w, older, newer);
      if LateClosedCandle(w, older, newer) {
        PrefixHasNothingLate(w, older, newer);
      } else {
        LastCarries(a, b);
        forall r | Has(b, r) && r.hour <= LastHour(a)
          ensures Has(a, r)
        {
          if MarketIsOpen(r.hour) {
            OpenRowIsOld(w, older, newer, r);
          } else if r.hour == LastHour(a) {
            LastRowIsOld(a, b, r);
          }
        }
        forall r | Has(a, r)
          ensures Has(b, r)
        {
          var k :| 0 <= k < |a| && a[k] == r;
        }
        InitialIsPrefix(a, b, |a|);
        assert a[..|a|] == a;
      }
    }
  }

  lemma PrefixHasNothingLate(w: Evidence, older: int, newer: int)
    requires LateClosedCandle(w, older, newer) && VisibleRows(w, older) != [] && IncreasingHours(VisibleRows(w, newer))
    ensures !(VisibleRows(w, older) <= VisibleRows(w, newer))
  {
    hide MarketIsOpen, VisibleRows;
    var a, b := VisibleRows(w, older), VisibleRows(w, newer);
    var r :| Has(b, r) && !Has(a, r) && r.hour < LastHour(a);
    PrefixHasEarly(a, b, r);
  }

  lemma PrefixHasEarly(a: seq<HourRow>, b: seq<HourRow>, r: HourRow)
    requires a != [] && IncreasingHours(b) && Has(b, r) && r.hour < LastHour(a)
    ensures a <= b ==> Has(a, r)
  {
    var j :| 0 <= j < |b| && b[j] == r;
    if a <= b {
      assert LastHour(a) == b[|a| - 1].hour;
      assert a[j] == r;
    }
  }

  lemma LastRowIsOld(a: seq<HourRow>, b: seq<HourRow>, r: HourRow)
    requires a != [] && IncreasingHours(b) && Has(b, a[|a| - 1]) && Has(b, r) && r.hour == LastHour(a)
    ensures Has(a, r)
  {
    SameHour(b, r, a[|a| - 1]);
  }

  /** The open hours of the first view's range are all in it. */
  lemma OpenRowIsOld(w: Evidence, older: int, newer: int, r: HourRow)
    requires GovernedHorizon(w) && older <= newer && Usable(w, older) && Usable(w, newer) && VisibleRows(w, older) != []
    requires Has(VisibleRows(w, newer), r) && r.hour <= LastHour(VisibleRows(w, older)) && MarketIsOpen(r.hour)
    ensures Has(VisibleRows(w, older), r)
  {
    hide MarketIsOpen, VisibleRows, Usable, NextMarketHour, CanSee, ValidEvidence;
    var a, b := VisibleRows(w, older), VisibleRows(w, newer);
    UsableIsComplete(w, older);
    UsableIsComplete(w, newer);
    UsableIncreases(w, newer);
    VisibleGrows(w, older, newer);
    var j :| 0 <= j < |b| && b[j] == r;
    assert b[0].hour <= r.hour;
    assert r.hour in Hours(a);
    var k :| 0 <= k < |Hours(a)| && Hours(a)[k] == r.hour;
    SameHour(b, r, a[k]);
  }

  /** With closed hours in order nothing comes late. */
  lemma NothingLate(w: Evidence, older: int, newer: int)
    requires GovernedHorizon(w) && older <= newer && VisibleRows(w, older) != []
    ensures ClosedHoursInOrder(w) ==> !LateClosedCandle(w, older, newer)
  {
    if ClosedHoursInOrder(w) {
      InOrderIsEarly(w, older, newer);
    }
  }

  lemma InOrderIsEarly(w: Evidence, older: int, newer: int)
    requires GovernedHorizon(w) && ClosedHoursInOrder(w) && older <= newer && VisibleRows(w, older) != []
    ensures !LateClosedCandle(w, older, newer)
  {
    hide MarketIsOpen, VisibleRows, ValidEvidence, MaturityAt;
    VisibleIs(w, older);
    VisibleIs(w, newer);
    var a, b := VisibleRows(w, older), VisibleRows(w, newer);
    var last := a[|a| - 1];
    forall r | Has(b, r) && !MarketIsOpen(r.hour) && r.hour < last.hour
      ensures Has(a, r)
    {
      var j :| 0 <= j < |b| && b[j] == r;
      assert CanSee(w, b[j], newer, Min(newer, MaturityAt(w)));
      assert Has(w.rows, b[j]) && Has(w.rows, last);
      assert CanSee(w, last, older, Min(older, MaturityAt(w)));
      assert CanSee(w, r, older, Min(older, MaturityAt(w)));
    }
  }

  /** Behind maturity the resolver and the validators read the same candles. */
  lemma MatureViews(w: Evidence, now: int)
    requires MaturityAt(w) <= now
    ensures VisibleRows(w, now) == EvidenceRows(w, now)
  {
  }

  /** A view with a hole does not cover the horizon either. */
  lemma UnusableIsUncovered(w: Evidence, now: int)
    requires ValidEvidence(w) && !Usable(w, now)
    ensures !Covered(w, VisibleRows(w, now), MaturityHour(w), now)
  {
    hide MarketIsOpen, ValidCandle, Has, VisibleRows, MaturityHour;
    var rows := VisibleRows(w, now);
    VisibleIs(w, now);
    var last := rows[|rows| - 1];
    HourBounds(w, last, now, Min(now, MaturityAt(w)));
    assert last.hour + 1 <= MaturityHour(w);
    if Covered(w, rows, MaturityHour(w), now) {
      ManifestAntitone(w, last.hour + 1, MaturityHour(w), now);
      Coverage.CoverageAntitone(GeneratedHour(w), last.hour + 1, MaturityHour(w), Hours(rows),
                                Manifest(w, last.hour + 1, now), Manifest(w, MaturityHour(w), now));
    }
  }

  lemma ManifestAntitone(w: Evidence, less: int, more: int, asOf: int)
    requires less <= more && Manifest(w, more, asOf)
    ensures Manifest(w, less, asOf)
  {
  }
}
