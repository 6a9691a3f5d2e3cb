/** What one run of the paper-trade resolver makes of the evidence visible to it. Instants are seconds on the New York
    wall clock; hour `h` starts at second `3600 * h`. */
module PaperTrading {
  import opened Rows
  import opened Fills
  import opened MarketCalendar
  import Coverage
  import Lifecycle
  import Rounding

  const HOUR: int := 3600
  const FOURTEEN_DAYS: int := 14 * 24 * 3600

  /** An hourly candle of the instrument; it becomes visible when its ingestion run finishes. */
  datatype HourRow = HourRow(hour: int, candle: Candle, finishedAt: int)

  /** A succeeded hourly ingestion run and the range it asked for. */
  datatype IngestionRun = IngestionRun(from: int, to: int, finishedAt: int)

  /** The daily candle of the target's last session. */
  datatype DailyRow = DailyRow(bidClose: int, askClose: int, succeeded: bool, finishedAt: int)

  /** A recommendation, its target, and everything the market tables will ever say about them. */
  datatype Evidence = Evidence(
    setup: Setup,
    generatedAt: int,
    reference: int,  // opening hour of the reference session
    sessions: nat,
    referenceMid: int,
    band: int,
    rows: seq<HourRow>,
    runs: seq<IngestionRun>,
    daily: Option<DailyRow>)

  function MaturityHour(w: Evidence): int {
    DailyCompletion(TargetEndpoint(w.reference, w.sessions))
  }

  function MaturityAt(w: Evidence): int {
    MaturityHour(w) * HOUR
  }

  function GeneratedHour(w: Evidence): int {
    w.generatedAt / HOUR
  }

  datatype Entry = Entry(hour: int, fill: Fill, enteredAt: int)

  datatype Kind = Target | Invalidated | Expired | NotActivated

  /** `hour` is absent when the position is closed at the daily horizon candle. */
  datatype Exit = Exit(hour: Option<int>, price: int, milliPips: int, r: int)
  datatype Result = Result(kind: Kind, exit: Option<Exit>, ambiguous: bool, onEntryCandle: bool, resolvedAt: int)

  datatype Reason = HourlyCoverage | DailyHorizon
  datatype Fact = Fact(state: Lifecycle.State, reason: Reason, citesResolution: bool, occurredAt: int)

  datatype Direction = Up | Neutral | Down | Missing
  datatype Resolution = Resolution(outcome: Direction, midpoint: Option<int>, change: Option<int>, resolvedAt: int)

  /** The rows the resolver owns, and the resolution of the target it shares with others. */
  datatype Trade = Trade(
    entry: Option<Entry>, result: Option<Result>, fact: Option<Fact>, shared: Option<Resolution>)

  const Fresh: Trade := Trade(None, None, None, None)

  predicate Settled(t: Trade) {
    t.result.Some? || t.fact.Some?
  }

  // ---------- the target ----------

  function ClassifyChange(change: int, band: int): Direction {
    if change > band then Up else if change < -band then Down else Neutral
  }

  function Midpoint(d: DailyRow): int {
    Rounding.HalfEven(d.bidClose + d.askClose, 2)
  }

  function EligibleEndpoint(w: Evidence, asOf: int): Option<DailyRow> {
    if MaturityAt(w) <= asOf && w.daily.Some? && w.daily.value.succeeded && w.daily.value.finishedAt <= asOf
    then w.daily else None
  }

  function ResolveTarget(w: Evidence, stored: Option<Resolution>, asOf: int): Option<Resolution> {
    if stored.Some? then stored
    else if MaturityAt(w) > asOf then None
    else
      var endpoint := EligibleEndpoint(w, asOf);
      if endpoint.None? then Some(Resolution(Missing, None, None, asOf))
      else
        var change := Midpoint(endpoint.value) - w.referenceMid;
        Some(Resolution(ClassifyChange(change, w.band), Some(Midpoint(endpoint.value)), Some(change), asOf))
  }

  /** What `resolve_target` returns for a stored row. */
  function SharedAt(stored: Option<Resolution>, asOf: int): Option<Resolution> {
    if stored.Some? && stored.value.resolvedAt <= asOf then stored else None
  }

  /** `validate_resolution` */
  predicate ValidResolution(w: Evidence, r: Resolution) {
    if r.outcome.Missing? then
      && r.midpoint.None? && r.change.None?
      && MaturityAt(w) <= r.resolvedAt
      && EligibleEndpoint(w, r.resolvedAt).None?
    else
      && r.midpoint.Some? && r.change.Some?
      && w.daily.Some? && w.daily.value.succeeded && w.daily.value.finishedAt <= r.resolvedAt
      && MaturityAt(w) <= r.resolvedAt
      && r.midpoint.value == Midpoint(w.daily.value)
      && r.change.value == r.midpoint.value - w.referenceMid
      && r.outcome == ClassifyChange(r.change.value, w.band)
  }

  // ---------- visible candles ----------

  predicate CanSee(w: Evidence, row: HourRow, asOf: int, cutoff: int) {
    w.generatedAt <= row.hour * HOUR && row.hour * HOUR <= cutoff - HOUR && row.finishedAt <= asOf
  }

  function Select(w: Evidence, rows: seq<HourRow>, asOf: int, cutoff: int): seq<HourRow> {
    if rows == [] then []
    else
      var rest := Select(w, rows[..|rows| - 1], asOf, cutoff);
      var last := rows[|rows| - 1];
      if CanSee(w, last, asOf, cutoff) then rest + [last] else rest
  }

  /** The resolver's query. */
  function VisibleRows(w: Evidence, now: int): seq<HourRow> {
    Select(w, w.rows, now, Min(now, MaturityAt(w)))
  }

  /** The validators' query. */
  function EvidenceRows(w: Evidence, asOf: int): seq<HourRow> {
    Select(w, w.rows, asOf, MaturityAt(w))
  }

  function Hours(rows: seq<HourRow>): seq<int> {
    seq(|rows|, i requires 0 <= i < |rows| => rows[i].hour)
  }

  function LastHour(rows: seq<HourRow>): int {
    if rows == [] then 0 else rows[|rows| - 1].hour
  }

  predicate Manifest(w: Evidence, through: int, asOf: int) {
    exists k :: 0 <= k < |w.runs| && w.runs[k].from <= w.generatedAt && through * HOUR <= w.runs[k].to
                && w.runs[k].finishedAt <= asOf
  }

  predicate Covered(w: Evidence, rows: seq<HourRow>, through: int, asOf: int) {
    Coverage.HasCoverage(GeneratedHour(w), through, Hours(rows), Manifest(w, through, asOf))
  }

  /** The first check of a run: the candles it can see leave no hole up to the last of them. */
  predicate Usable(w: Evidence, now: int) {
    var rows := VisibleRows(w, now);
    rows == [] || Covered(w, rows, LastHour(rows) + 1, now)
  }

  // ---------- entry and exit ----------

  datatype Scan =
    | Waiting
    | Holding(entryHour: int, fill: Fill)
    | Closed(entryHour: int, fill: Fill, kind: Kind, exitHour: int, price: int, ambiguous: bool, onEntryCandle: bool)

  function FirstFill(s: Setup, rows: seq<HourRow>, k: nat): (i: Option<nat>)
    requires k <= |rows|
    ensures i.Some? ==> k <= i.value < |rows| && EntryFill(s, rows[i.value].candle).Some?
    decreases |rows| - k
  {
    if k == |rows| then None
    else if EntryFill(s, rows[k].candle).Some? then Some(k)
    else FirstFill(s, rows, k + 1)
  }

  function ExitScan(s: Setup, rows: seq<HourRow>, entryHour: int, fill: Fill, k: nat): Scan
    requires k <= |rows|
    decreases |rows| - k
  {
    if k == |rows| then Holding(entryHour, fill)
    else
      var c := rows[k].candle;
      if StopTouched(s, c) then
        Closed(entryHour, fill, Invalidated, rows[k].hour, StopFill(s, c), TargetTouched(s, c), false)
      else if TargetTouched(s, c) then
        Closed(entryHour, fill, Target, rows[k].hour, s.target, false, false)
      else ExitScan(s, rows, entryHour, fill, k + 1)
  }

  /** The candle the entry is filled on: a stop always counts, a target only behind a fill at the open. */
  function EntryScan(s: Setup, rows: seq<HourRow>, i: nat): Scan
    requires i < |rows| && EntryFill(s, rows[i].candle).Some?
  {
    var c := rows[i].candle;
    var fill := EntryFill(s, c).value;
    if StopTouched(s, c) then
      Closed(rows[i].hour, fill, Invalidated, rows[i].hour, StopFill(s, c), TargetTouched(s, c), true)
    else if TargetTouched(s, c) && fill.atOpen then
      Closed(rows[i].hour, fill, Target, rows[i].hour, s.target, false, true)
    else ExitScan(s, rows, rows[i].hour, fill, i + 1)
  }

  /** One uninterrupted pass over a list of candles. */
  function FullScan(s: Setup, rows: seq<HourRow>): Scan {
    var i := FirstFill(s, rows, 0);
    if i.None? then Waiting else EntryScan(s, rows, i.value)
  }

  function Locate(rows: seq<HourRow>, hour: int, k: nat): (i: Option<nat>)
    requires k <= |rows|
    ensures i.Some? ==> k <= i.value < |rows| && rows[i.value].hour == hour
    ensures i.None? ==> forall j :: k <= j < |rows| ==> rows[j].hour != hour
    decreases |rows| - k
  {
    if k == |rows| then None else if rows[k].hour == hour then Some(k) else Locate(rows, hour, k + 1)
  }

  /** A later run picks up behind the persisted entry candle. */
  function ResumedScan(s: Setup, rows: seq<HourRow>, entry: Entry): Scan {
    var i := Locate(rows, entry.hour, 0);
    ExitScan(s, rows, entry.hour, entry.fill, if i.Some? then i.value + 1 else 0)
  }

  function ScanFor(s: Setup, rows: seq<HourRow>, entry: Option<Entry>): Scan {
    if entry.None? then FullScan(s, rows) else ResumedScan(s, rows, entry.value)
  }

  // ---------- writing ----------

  /** The pips of a stored price difference are exact; the R multiple is rounded. */
  function ExitRow(s: Setup, fill: Fill, hour: Option<int>, price: int): Exit
    requires RiskOf(s, fill.price) != 0
  {
    Exit(hour, price, SignedChange(s, fill.price, price) * 10, RMultiple(s, fill.price, price))
  }

  function Enter(t: Trade, scan: Scan, now: int): Trade {
    if t.entry.Some? || scan.Waiting? then t else t.(entry := Some(Entry(scan.entryHour, scan.fill, now)))
  }

  /** `validate_coverage_fact` */
  predicate ValidFact(w: Evidence, t: Trade, f: Fact) {
    && MaturityAt(w) <= f.occurredAt
    && if f.reason.DailyHorizon? then
         && f.state == Lifecycle.MissingData
         && t.shared.Some? && t.shared.value.outcome.Missing? && t.shared.value.resolvedAt <= f.occurredAt
         && f.citesResolution
       else
         && f.state == (if t.entry.Some? && t.entry.value.enteredAt <= f.occurredAt
                        then Lifecycle.MissingData else Lifecycle.ExpiredUnobserved)
         && !Covered(w, EvidenceRows(w, f.occurredAt), MaturityHour(w), f.occurredAt)
  }

  /** `validate_expiry_result` */
  predicate ValidExpiry(w: Evidence, kind: Kind, resolvedAt: int) {
    var rows := EvidenceRows(w, resolvedAt);
    && MaturityAt(w) <= resolvedAt
    && Covered(w, rows, MaturityHour(w), resolvedAt)
    && (kind.NotActivated? ==> forall k :: 0 <= k < |rows| ==> EntryFill(w.setup, rows[k].candle).None?)
  }

  /** A row its validator rejects aborts the whole transaction. */
  function WriteFact(w: Evidence, t: Trade, f: Fact): Option<Trade> {
    if ValidFact(w, t, f) then Some(t.(fact := Some(f))) else None
  }

  function WriteExpiry(w: Evidence, t: Trade, r: Result): Option<Trade> {
    if ValidExpiry(w, r.kind, r.resolvedAt) then Some(t.(result := Some(r))) else None
  }

  function HourlyFact(t: Trade, now: int): Fact {
    Fact(if t.entry.Some? then Lifecycle.MissingData else Lifecycle.ExpiredUnobserved, HourlyCoverage, false, now)
  }

  function HorizonCandle(w: Evidence, now: int): Option<DailyRow> {
    if w.daily.Some? && w.daily.value.finishedAt <= now then w.daily else None
  }

  /** What is left when the candles gave no exit. */
  function Unresolved(w: Evidence, t: Trade, now: int): Option<Trade> {
    var shared := SharedAt(t.shared, now);
    var horizon := HorizonCandle(w, now);
    if shared.Some? && shared.value.outcome.Missing? then
      WriteFact(w, t, Fact(Lifecycle.MissingData, DailyHorizon, true, now))
    else if horizon.None? || !Covered(w, VisibleRows(w, now), MaturityHour(w), now) then
      if horizon.None? && w.generatedAt + FOURTEEN_DAYS < now
         && WriteFact(w, t, Fact(Lifecycle.MissingData, DailyHorizon, false, now)).None? then None
      else if MaturityAt(w) <= now then WriteFact(w, t, HourlyFact(t, now))
      else Some(t)
    else if t.entry.None? then
      WriteExpiry(w, t, Result(NotActivated, None, false, false, now))
    else if RiskOf(w.setup, t.entry.value.fill.price) == 0 then None
    else
      var price := if w.setup.buy then horizon.value.bidClose else horizon.value.askClose;
      WriteExpiry(w, t, Result(Expired, Some(ExitRow(w.setup, t.entry.value.fill, None, price)), false, false, now))
  }

  /** Everything behind the coverage check. */
  function Conclude(w: Evidence, t: Trade, scan: Scan, now: int): Option<Trade> {
    if scan.Closed? then
      if RiskOf(w.setup, scan.fill.price) == 0 then None
      else Some(t.(result := Some(Result(
        scan.kind, Some(ExitRow(w.setup, scan.fill, Some(scan.exitHour), scan.price)),
        scan.ambiguous, scan.onEntryCandle, now))))
    else Unresolved(w, t, now)
  }

  /** `resolve_paper_trade`: the rows after one run, or none when a validator refused one and all was rolled back. */
  function Run(w: Evidence, t: Trade, now: int): Option<Trade> {
    if Settled(t) then Some(t)
    else
      var stored := ResolveTarget(w, t.shared, now);
      if stored != t.shared && !ValidResolution(w, stored.value) then None
      else
        var t1 := t.(shared := stored);
        if !Usable(w, now) then
          if MaturityAt(w) <= now then WriteFact(w, t1, HourlyFact(t1, now)) else Some(t1)
        else
          var scan := ScanFor(w.setup, VisibleRows(w, now), t.entry);
          Conclude(w, Enter(t1, scan, now), scan, now)
  }

  /** Runs at successive instants; a rolled-back run leaves nothing. */
  function RunAll(w: Evidence, t: Trade, times: seq<int>): Trade {
    if times == [] then t
    else
      var before := RunAll(w, t, times[..|times| - 1]);
      var after := Run(w, before, times[|times| - 1]);
      if after.Some? then after.value else before
  }
}
