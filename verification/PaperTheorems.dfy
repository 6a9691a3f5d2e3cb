/** Properties of every run, and of whole histories of runs, of the paper-trade resolver. */
module PaperTheorems {
  import opened Rows
  import opened Fills
  import opened PaperTrading
  import opened PaperEvidence
  import opened PaperScans
  import opened MarketCalendar
  import Coverage
  import Lifecycle
  import Rounding

  // ---------- the shared target ----------

  /** The validator accepts a resolution exactly when it is the one the writer produces at that instant. */
  lemma ResolutionValidIff(w: Evidence, r: Resolution)
    ensures ValidResolution(w, r) <==> ResolveTarget(w, None, r.resolvedAt) == Some(r)
  {
  }

  // ---------- one run ----------

  /** What stored rows satisfy: no row from the future, a fill with risk, a resolution its validator accepted. */
  ghost predicate TradeOk(w: Evidence, t: Trade, now: int) {
    && (t.entry.Some? ==> t.entry.value.enteredAt <= now && RiskOf(w.setup, t.entry.value.fill.price) > 0)
    && (t.shared.Some? ==> t.shared.value.resolvedAt <= now && ValidResolution(w, t.shared.value))
  }

  /** The branch for a horizon candle missing fourteen days after generation. */
  ghost predicate FourteenDayBranch(w: Evidence, now: int) {
    now < MaturityAt(w) && HorizonCandle(w, now).None? && w.generatedAt + FOURTEEN_DAYS < now
  }

  ghost predicate NothingFills(w: Evidence, now: int) {
    forall k :: 0 <= k < |VisibleRows(w, now)| ==> !CanFill(w.setup, VisibleRows(w, now)[k])
  }

  lemma UnresolvedOutcome(w: Evidence, t: Trade, now: int)
    requires ValidEvidence(w) && TradeOk(w, t, now) && !Settled(t) && Usable(w, now)
    requires MaturityAt(w) <= now ==> t.shared.Some?
    requires t.entry.None? ==> NothingFills(w, now)
    ensures Unresolved(w, t, now).None? <==> FourteenDayBranch(w, now)
    ensures MaturityAt(w) <= now ==> Settled(Unresolved(w, t, now).value)
    ensures now < MaturityAt(w) && Unresolved(w, t, now).Some? ==> Unresolved(w, t, now) == Some(t)
  {
    hide ValidEvidence, VisibleRows, EvidenceRows, Covered, Usable, MaturityAt, MaturityHour;
    if now < MaturityAt(w) {
      ImmatureIsUncovered(w, now);
    } else {
      MatureViews(w, now);
    }
  }

  /** A validator refuses a row the resolver wants to write exactly in the fourteen-day branch; every other row of
      every run - target resolutions, both coverage reasons, expiries and non-activations - is accepted, and a run
      behind maturity always settles the trade. */
  lemma RunRefusedIff(w: Evidence, t: Trade, now: int)
    requires ValidEvidence(w) && TradeOk(w, t, now)
    ensures Run(w, t, now).None? <==>
              && !Settled(t) && Usable(w, now) && FourteenDayBranch(w, now)
              && !ScanFor(w.setup, VisibleRows(w, now), t.entry).Closed?
    ensures MaturityAt(w) <= now ==> Settled(Run(w, t, now).value)
    ensures Run(w, t, now).Some? ==> TradeOk(w, Run(w, t, now).value, now)
  {
    hide ValidEvidence, VisibleRows, EvidenceRows, Covered, Usable, MaturityAt, MaturityHour, FourteenDayBranch,
      ValidResolution, ResolveTarget, FullScan, ResumedScan, Unresolved, ValidFact, ValidExpiry;
    if !Settled(t) {
      StoredResolution(w, t.shared, now);
      var t1 := t.(shared := ResolveTarget(w, t.shared, now));
      if !Usable(w, now) {
        if MaturityAt(w) <= now { UnusableFactValid(w, t1, now); }
        NotFourteen(w, now);
      } else {
        var rows := VisibleRows(w, now);
        var scan := ScanFor(w.setup, rows, t.entry);
        ScanForRisk(w, t, now);
        if !scan.Closed? {
          WaitingMeansNothingFills(w, now);
          var t2 := Enter(t1, scan, now);
          UnresolvedOutcome(w, t2, now);
          UnresolvedKeeps(w, t2, now);
        }
      }
    }
  }

  lemma NotFourteen(w: Evidence, now: int)
    ensures MaturityAt(w) <= now ==> !FourteenDayBranch(w, now)
  {
  }

  lemma StoredResolution(w: Evidence, stored: Option<Resolution>, now: int)
    ensures var s := ResolveTarget(w, stored, now);
            && (stored.Some? ==> s == stored)
            && (stored.None? && s.Some? ==> ValidResolution(w, s.value) && s.value.resolvedAt == now)
            && (MaturityAt(w) <= now ==> s.Some?)
            && (now < MaturityAt(w) ==> s == stored)
  {
  }

  lemma UnusableFactValid(w: Evidence, t: Trade, now: int)
    requires ValidEvidence(w) && TradeOk(w, t, now) && !Usable(w, now) && MaturityAt(w) <= now
    ensures ValidFact(w, t, HourlyFact(t, now))
  {
    hide ValidEvidence, VisibleRows, EvidenceRows, Covered, Usable;
    UnusableIsUncovered(w, now);
    MatureViews(w, now);
  }

  lemma ScanForRisk(w: Evidence, t: Trade, now: int)
    requires ValidEvidence(w) && TradeOk(w, t, now)
    ensures var scan := ScanFor(w.setup, VisibleRows(w, now), t.entry);
            && (!scan.Waiting? ==> RiskOf(w.setup, scan.fill.price) > 0)
            && (t.entry.Some? ==> !scan.Waiting? && scan.fill == t.entry.value.fill)
  {
    hide VisibleRows;
    var rows := VisibleRows(w, now);
    if t.entry.None? {
      VisibleIs(w, now);
      ScanRisk(w.setup, rows);
    } else {
      var e := t.entry.value;
      var i := Locate(rows, e.hour, 0);
      var k := if i.Some? then i.value + 1 else 0;
      var x := ExitScanFinds(w.setup, rows, e.hour, e.fill, k);
      if x < |rows| { ExitScanClosesIff(w.setup, rows, e.hour, e.fill, k, x); }
    }
  }

  lemma WaitingMeansNothingFills(w: Evidence, now: int)
    ensures FullScan(w.setup, VisibleRows(w, now)).Waiting? <==> NothingFills(w, now)
  {
    hide VisibleRows;
    var rows := VisibleRows(w, now);
    NoFillIff(w.setup, rows, 0);
    var i := FirstFill(w.setup, rows, 0);
    if i.Some? {
      var fill := EntryFill(w.setup, rows[i.value].candle).value;
      var x := ExitScanFinds(w.setup, rows, rows[i.value].hour, fill, i.value + 1);
    }
  }

  lemma UnresolvedKeeps(w: Evidence, t: Trade, now: int)
    ensures var u := Unresolved(w, t, now);
            u.Some? ==> u.value.entry == t.entry && u.value.shared == t.shared
  {
  }

  /** The fourteen-day branch needs a maturity more than fourteen days behind generation; five sessions take at most
      a week, so governed runs are never refused. */
  lemma GovernedRunNeverRefused(w: Evidence, t: Trade, now: int)
    requires GovernedHorizon(w) && TradeOk(w, t, now)
    ensures Run(w, t, now).Some? && TradeOk(w, Run(w, t, now).value, now)
  {
    hide ValidEvidence, Run, TradeOk, ScanFor, Usable, VisibleRows, HorizonCandle;
    RunRefusedIff(w, t, now);
    FiveSessionsFit(w);
  }

  lemma FiveSessionsFit(w: Evidence)
    requires GovernedHorizon(w)
    ensures MaturityAt(w) <= w.generatedAt + WEEK * HOUR
  {
    Coverage.FiveSessionWindowIsTrustworthy(w.reference, GeneratedHour(w));
    assert w.generatedAt == GeneratedHour(w) * HOUR + w.generatedAt % HOUR;
  }

  // ---------- the lifecycle ----------

  /** The state the recommendation's chain ends in after the resolver's writes. */
  function LifecycleState(t: Trade): Lifecycle.State {
    if t.result.Some? then
      match t.result.value.kind
      case Target => Lifecycle.TargetHit
      case Invalidated => Lifecycle.Invalidated
      case Expired => Lifecycle.ExpiredAfterEntry
      case NotActivated => Lifecycle.ExpiredNotActivated
    else if t.fact.Some? then t.fact.value.state
    else if t.entry.Some? then Lifecycle.Entered
    else Lifecycle.AdmittedAwaitingEntry
  }

  ghost predicate FactStateOk(t: Trade) {
    t.fact.Some? ==>
      t.fact.value.state == Lifecycle.MissingData
          || (t.fact.value.state == Lifecycle.ExpiredUnobserved && t.entry.None?)
  }

  /** A run moves the recommendation along legal transitions only: not at all, by one event, or by the entry followed
      by its exit; and a settled trade is in a terminal state. */
  lemma RunMovesLegally(w: Evidence, t: Trade, now: int)
    requires ValidEvidence(w) && TradeOk(w, t, now) && Run(w, t, now).Some? && FactStateOk(t)
    ensures var from, to := LifecycleState(t), LifecycleState(Run(w, t, now).value);
            && (|| to == from
                || to in Lifecycle.Successors(from)
                || (Lifecycle.Entered in Lifecycle.Successors(from) && to in Lifecycle.Successors(Lifecycle.Entered)))
            && (Settled(Run(w, t, now).value) <==> Lifecycle.Terminal(to))
            && FactStateOk(Run(w, t, now).value)
  {
    hide ValidEvidence, VisibleRows, EvidenceRows, Covered, Usable, MaturityAt, MaturityHour, ValidResolution,
      ResolveTarget, FullScan, ResumedScan, TradeOk;
    if !Settled(t) {
      ScanForRisk(w, t, now);
      ScanKinds(w, t, now);
    }
  }

  lemma ScanKinds(w: Evidence, t: Trade, now: int)
    ensures var scan := ScanFor(w.setup, VisibleRows(w, now), t.entry);
            && (scan.Closed? ==> scan.kind in {Target, Invalidated})
            && (t.entry.Some? ==> !scan.Waiting?)
  {
    hide VisibleRows;
    var rows, s := VisibleRows(w, now), w.setup;
    if t.entry.None? {
      var i := FirstFill(s, rows, 0);
      if i.Some? {
        ExitKinds(s, rows, rows[i.value].hour, EntryFill(s, rows[i.value].candle).value, i.value + 1);
      }
    } else {
      var i := Locate(rows, t.entry.value.hour, 0);
      ExitKinds(s, rows, t.entry.value.hour, t.entry.value.fill, if i.Some? then i.value + 1 else 0);
    }
  }

  lemma ExitKinds(s: Setup, rows: seq<HourRow>, entryHour: int, fill: Fill, k: nat)
    requires k <= |rows|
    ensures var scan := ExitScan(s, rows, entryHour, fill, k);
            !scan.Waiting? && (scan.Closed? ==> scan.kind in {Target, Invalidated})
  {
    var x := ExitScanFinds(s, rows, entryHour, fill, k);
    if x < |rows| { ExitScanClosesIff(s, rows, entryHour, fill, k, x); }
  }
}
