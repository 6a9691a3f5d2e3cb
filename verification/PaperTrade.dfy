/** The resolver as it runs: rows of one trade that a transaction updates in place. */
module PaperTrades {
  import opened Rows
  import opened Fills
  import opened PaperTrading
  import Lifecycle

  class PaperTrade {
    var entry: Option<Entry>
    var result: Option<Result>
    var fact: Option<Fact>
    var shared: Option<Resolution>

    constructor ()
      ensures Contents() == Fresh
    {
      entry, result, fact, shared := None, None, None, None;
    }

    function Contents(): Trade
      reads this
    {
      Trade(entry, result, fact, shared)
    }

    /** `resolve_target` on the stored row; false when the new row is refused. */
    method ResolveShared(w: Evidence, asOf: int) returns (ok: bool)
      modifies `shared
      ensures shared == ResolveTarget(w, old(shared), asOf)
      ensures ok <==> shared == old(shared) || ValidResolution(w, shared.value)
    {
      if shared.Some? || MaturityAt(w) > asOf {
        return true;
      }
      var endpoint := EligibleEndpoint(w, asOf);
      if endpoint.Some? {
        var midpoint := Midpoint(endpoint.value);
        var change := midpoint - w.referenceMid;
        shared := Some(Resolution(ClassifyChange(change, w.band), Some(midpoint), Some(change), asOf));
      } else {
        shared := Some(Resolution(Missing, None, None, asOf));
      }
      ok := ValidResolution(w, shared.value);
    }

    method RecordFact(w: Evidence, f: Fact) returns (ok: bool)
      modifies `fact
      ensures ok <==> WriteFact(w, old(Contents()), f).Some?
      ensures Contents() == if ok then WriteFact(w, old(Contents()), f).value else old(Contents())
    {
      ok := ValidFact(w, Contents(), f);
      if ok {
        fact := Some(f);
      }
    }

    /** `_create_result` for an exit on an hourly candle. */
    method CloseAt(w: Evidence, kind: Kind, row: HourRow, price: int, ambiguous: bool, onEntryCandle: bool, now: int)
      returns (ok: bool)
      requires entry.Some?
      modifies `result
      ensures var scan := Closed(entry.value.hour, entry.value.fill, kind, row.hour, price, ambiguous, onEntryCandle);
              && (ok <==> Conclude(w, old(Contents()), scan, now).Some?)
              && Contents() == if ok then Conclude(w, old(Contents()), scan, now).value else old(Contents())
    {
      var fill := entry.value.fill;
      if RiskOf(w.setup, fill.price) == 0 {
        return false;
      }
      result := Some(Result(kind, Some(ExitRow(w.setup, fill, Some(row.hour), price)), ambiguous, onEntryCandle, now));
      ok := true;
    }

    /** The part of `resolve_paper_trade` behind the candle loops. */
    method SettleWithoutExit(w: Evidence, now: int) returns (ok: bool)
      modifies `result, `fact
      ensures ok <==> Unresolved(w, old(Contents()), now).Some?
      ensures Contents() == if ok then Unresolved(w, old(Contents()), now).value else old(Contents())
    {
      hide VisibleRows, Covered, MaturityAt, MaturityHour, ValidFact, ValidExpiry, RMultiple;
      var view := SharedAt(shared, now);
      var horizon := HorizonCandle(w, now);
      if view.Some? && view.value.outcome.Missing? {
        ok := RecordFact(w, Fact(Lifecycle.MissingData, DailyHorizon, true, now));
        return;
      }
      if horizon.None? || !Covered(w, VisibleRows(w, now), MaturityHour(w), now) {
        if horizon.None? && w.generatedAt + FOURTEEN_DAYS < now {
          var first := WriteFact(w, Contents(), Fact(Lifecycle.MissingData, DailyHorizon, false, now));
          if first.None? {
            return false;
          }
        }
        ok := true;
        if MaturityAt(w) <= now {
          ok := RecordFact(w, HourlyFact(Contents(), now));
        }
        return;
      }
      var r;
      if entry.None? {
        r := Result(NotActivated, None, false, false, now);
      } else if RiskOf(w.setup, entry.value.fill.price) == 0 {
        return false;
      } else {
        var price := if w.setup.buy then horizon.value.bidClose else horizon.value.askClose;
        r := Result(Expired, Some(ExitRow(w.setup, entry.value.fill, None, price)), false, false, now);
      }
      ok := ValidExpiry(w, r.kind, now);
      if ok {
        result := Some(r);
      }
    }

    /** The index of the stored entry's candle. */
    method FindCandle(candles: seq<HourRow>, hour: int) returns (index: Option<nat>)
      ensures index == Locate(candles, hour, 0)
    {
      for k := 0 to |candles|
        invariant Locate(candles, hour, 0) == Locate(candles, hour, k)
      {
        if candles[k].hour == hour {
          return Some(k);
        }
      }
      index := None;
    }

    /** The loops over the candles: look for the entry, then for the exit; false when a result was refused. */
    method WalkCandles(w: Evidence, candles: seq<HourRow>, now: int) returns (ok: bool)
      modifies this
      ensures var t := old(Contents());
              var scan := ScanFor(w.setup, candles, t.entry);
              && (ok <==> Conclude(w, Enter(t, scan, now), scan, now).Some?)
              && (ok ==> Contents() == Conclude(w, Enter(t, scan, now), scan, now).value)
    {
      hide EntryFill, StopTouched, TargetTouched, StopFill, Unresolved, RMultiple, RiskOf;
      var s := w.setup;
      ghost var t, full := Contents(), ScanFor(s, candles, entry);
      var start := 0;
      if entry.Some? {
        var index := FindCandle(candles, entry.value.hour);
        start := if index.Some? then index.value + 1 else 0;
      } else {
        var k := 0;
        while k < |candles| && EntryFill(s, candles[k].candle).None?
          invariant 0 <= k <= |candles|
          invariant FirstFill(s, candles, 0) == FirstFill(s, candles, k)
        {
          k := k + 1;
        }
        if k < |candles| {
          var row := candles[k];
          var fill := EntryFill(s, row.candle).value;
          entry := Some(Entry(row.hour, fill, now));
          assert full == EntryScan(s, candles, k);
          var targetHit, stopHit := TargetTouched(s, row.candle), StopTouched(s, row.candle);
          if stopHit {
            ok := CloseAt(w, Invalidated, row, StopFill(s, row.candle), targetHit, true, now);
            return;
          }
          if targetHit && fill.atOpen {
            ok := CloseAt(w, Target, row, s.target, false, true, now);
            return;
          }
          start := k + 1;
        }
      }
      if entry.Some? {
        assert full == ExitScan(s, candles, entry.value.hour, entry.value.fill, start);
        for k := start to |candles|
          invariant Contents() == t.(entry := entry) && entry.Some? && (t.entry.Some? ==> entry == t.entry)
          invariant t.entry.None? ==> entry.value.enteredAt == now
          invariant full == ExitScan(s, candles, entry.value.hour, entry.value.fill, k)
        {
          var row := candles[k];
          var targetHit, stopHit := TargetTouched(s, row.candle), StopTouched(s, row.candle);
          if stopHit {
            ok := CloseAt(w, Invalidated, row, StopFill(s, row.candle), targetHit, false, now);
            return;
          }
          if targetHit {
            ok := CloseAt(w, Target, row, s.target, false, false, now);
            return;
          }
        }
      }
      ok := SettleWithoutExit(w, now);
    }

    method Advance(w: Evidence, now: int) returns (ok: bool)
      requires !Settled(Contents())
      modifies this
      ensures ok <==> Run(w, old(Contents()), now).Some?
      ensures ok ==> Contents() == Run(w, old(Contents()), now).value
    {
      hide ResolveTarget, ValidResolution, VisibleRows, Covered, ValidFact, MaturityAt, ScanFor, Conclude;
      ok := ResolveShared(w, now);
      if !ok {
        return;
      }
      var candles := VisibleRows(w, now);
      if candles != [] && !Covered(w, candles, LastHour(candles) + 1, now) {
        if MaturityAt(w) <= now {
          ok := RecordFact(w, HourlyFact(Contents(), now));
        }
        return;
      }
      ok := WalkCandles(w, candles, now);
    }

    /** `resolve_paper_trade` in its transaction: a refused row restores everything. */
    method Resolve(w: Evidence, now: int) returns (ok: bool)
      modifies this
      ensures ok <==> Run(w, old(Contents()), now).Some?
      ensures Contents() == if ok then Run(w, old(Contents()), now).value else old(Contents())
    {
      if result.Some? || fact.Some? {
        return true;
      }
      var saved := Contents();
      ok := Advance(w, now);
      if !ok {
        entry, result, fact, shared := saved.entry, saved.result, saved.fact, saved.shared;
      }
    }
  }
}
