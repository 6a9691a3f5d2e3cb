/** The deterministic assessment: which gates close, which reason leads, and when a candidate is offered. */
module Gates {
  import opened Rows
  import Texts

  type Json = string

  datatype Reason =
    | InputIntegrityFailure | NoEconomicallyAdmittedStrategy | StrategyNotAdmittedForInstrument
    | StrategyRoleCannotOriginateIntent | RequiredTimeframeUnavailable | M15ConfirmationUnavailable
    | RequiredEvidenceNotReady | EventStateUnknown | EventWindowBlocked | TechnicalSetupAbsent | TriggerPending
    | TriggerRejected | TriggerInvalidated | TriggerExpired | SpreadUnknown | SpreadExceedsStrategyLimit
    | CostEvidenceMissing | CostEvidenceStale | NetRewardNonpositive | CapacityAssessmentMissing
    | AggregateCapacityExceeded | CurrencyDirectionCapacityExceeded | ConflictingEligibleSetups
    | UnsupportedIntentShape | UnchangedDuplicateIntent

  /** The reasons in order of precedence. */
  const REASONS: seq<Reason> := [
    InputIntegrityFailure, NoEconomicallyAdmittedStrategy, StrategyNotAdmittedForInstrument,
    StrategyRoleCannotOriginateIntent, RequiredTimeframeUnavailable, M15ConfirmationUnavailable,
    RequiredEvidenceNotReady, EventStateUnknown, EventWindowBlocked, TechnicalSetupAbsent, TriggerPending,
    TriggerRejected, TriggerInvalidated, TriggerExpired, SpreadUnknown, SpreadExceedsStrategyLimit,
    CostEvidenceMissing, CostEvidenceStale, NetRewardNonpositive, CapacityAssessmentMissing,
    AggregateCapacityExceeded, CurrencyDirectionCapacityExceeded, ConflictingEligibleSetups,
    UnsupportedIntentShape, UnchangedDuplicateIntent]

  lemma EveryReasonListed(r: Reason)
    ensures r in REASONS
  {
  }

  /** `detail` is absent where a record holds JSON null. */
  datatype Gate = Gate(closed: bool, detail: Option<string>)

  datatype Closing = Closing(reason: Reason, detail: string)

  function TextOf(detail: Option<string>): string {
    if detail.Some? then detail.value else ""
  }

  /** One `_close`: the details of a gate are a sorted set. */
  function Merge(detail: string, more: string): string {
    if more == "" then detail else Texts.Join(Texts.SortedSet(Texts.NonEmpty(Texts.Split(detail, ';')) + [more]), ";")
  }

  function CloseGate(g: Gate, detail: string): Gate {
    Gate(true, Some(Merge(TextOf(g.detail), detail)))
  }

  /** The gate of one reason after a sequence of closings. */
  function GateAfter(closings: seq<Closing>, r: Reason): Gate {
    if closings == [] then Gate(false, Some(""))
    else
      var last := closings[|closings| - 1];
      var before := GateAfter(closings[..|closings| - 1], r);
      if last.reason == r then CloseGate(before, last.detail) else before
  }

  predicate Closes(closings: seq<Closing>, r: Reason) {
    exists k :: 0 <= k < |closings| && closings[k].reason == r
  }

  lemma {:induction false} ClosedIff(closings: seq<Closing>, r: Reason)
    ensures GateAfter(closings, r).closed <==> Closes(closings, r)
  {
    hide Merge;
    if closings != [] {
      var n := |closings| - 1;
      ClosedIff(closings[..n], r);
      if Closes(closings[..n], r) {
        var k :| 0 <= k < n && closings[..n][k].reason == r;
        assert closings[k].reason == r;
      }
      if closings[n].reason == r { assert Closes(closings, r); }
    }
  }

  /** Gates never reopen, whatever is closed later. */
  lemma GatesNeverReopen(closings: seq<Closing>, more: seq<Closing>, r: Reason)
    ensures GateAfter(closings, r).closed ==> GateAfter(closings + more, r).closed
  {
    ClosedIff(closings, r);
    ClosedIff(closings + more, r);
    if Closes(closings, r) {
      var k :| 0 <= k < |closings| && closings[k].reason == r;
      assert (closings + more)[k].reason == r;
    }
  }

  lemma FirstDetail(detail: string)
    ensures Merge("", detail) == detail
  {
    if detail != "" {
      assert Texts.Split("", ';') == [""];
      assert Texts.NonEmpty([""]) == [];
      assert [detail][..0] == [];
      assert Texts.SortedSet([detail]) == Texts.Insert(Texts.SortedSet([]), detail, true);
      assert [] + [detail] == [detail];
    }
  }

  /** `_primary`: the first closed reason in order of precedence. */
  function PrimaryFrom(closings: seq<Closing>, k: nat): Option<Reason>
    requires k <= |REASONS|
    decreases |REASONS| - k
  {
    if k == |REASONS| then None
    else if GateAfter(closings, REASONS[k]).closed then Some(REASONS[k])
    else PrimaryFrom(closings, k + 1)
  }

  function Primary(closings: seq<Closing>): Option<Reason> {
    PrimaryFrom(closings, 0)
  }

  lemma {:induction false} PrimaryIs(closings: seq<Closing>, k: nat)
    requires k <= |REASONS|
    ensures PrimaryFrom(closings, k).None? <==> forall j :: k <= j < |REASONS| ==> !Closes(closings, REASONS[j])
    ensures PrimaryFrom(closings, k).Some? ==>
              exists j :: k <= j < |REASONS| && PrimaryFrom(closings, k).value == REASONS[j]
                  && Closes(closings, REASONS[j])
                && forall i :: k <= i < j ==> !Closes(closings, REASONS[i])
    decreases |REASONS| - k
  {
    hide REASONS;
    if k < |REASONS| {
      ClosedIff(closings, REASONS[k]);
      PrimaryIs(closings, k + 1);
    }
  }

  // ---------- inputs ----------

  datatype Role = SetupRole | OtherRole

  /** What the completed-candle timestamps of a setup say about its entry. */
  datatype Timing = Malformed | NotSuccessor | Successor

  datatype Setup = Setup(
    m15: bool, long: bool, reference: real, stop: real, target: real, timing: Timing, evidence: seq<Json>,
    availableAt: Json, entryAt: Json, expiresAt: Json)

  /** The first setup of an evaluation's output, or the first unavailability reason. */
  datatype Output = HasSetup(setup: Setup) | Unavailable(reason: string)

  datatype Evaluation = Evaluation(strategy: string, definition: string, role: Role, identity: string, output: Output)
  datatype Entry = Entry(strategy: string, definition: string, role: Role, required: seq<string>)

  datatype Cost = Cost(
    spread: Option<real>, commission: Option<real>, slippage: Option<real>, financing: Option<real>,
    others: seq<real>,  // components under any further names
    staleAfter: int, staleText: string, identity: Json)
  datatype Leg = Leg(long: bool, available: bool)
  datatype Capacity = Capacity(aggregate: string, legs: seq<Leg>, identity: Json)

  datatype Block = Block(state: string, trend: Option<Json>, zones: seq<Json>, whole: Json)

  /** A field that may be missing, JSON null, or text. */
  type Field = Option<Option<string>>
  datatype Event = Event(state: Field, coverage: Field, reasonCode: Field, active: seq<string>, whole: Json)
  datatype Snapshot = Snapshot(
    cutoff: int, granularities: map<string, Block>, monthlyAvailable: bool, monthly: Json, macro: Json, event: Event)

  datatype Input = Input(
    snapshot: Snapshot, entries: seq<Entry>, evaluations: seq<Evaluation>, cost: Option<Cost>,
    capacity: Option<Capacity>, evidence: Option<Json>, duplicate: bool)

  // ---------- market fields ----------

  const TIMEFRAMES: seq<string> := ["W", "D", "H4", "H1", "M15"]

  function BlockAvailable(s: Snapshot, timeframe: string): bool {
    timeframe in s.granularities && s.granularities[timeframe].state == "available"
  }

  function MissingFrom(s: Snapshot, k: nat): seq<string>
    requires k <= |TIMEFRAMES|
    decreases |TIMEFRAMES| - k
  {
    if k == |TIMEFRAMES| then []
    else (if BlockAvailable(s, TIMEFRAMES[k]) then [] else [TIMEFRAMES[k]]) + MissingFrom(s, k + 1)
  }

  function Missing(s: Snapshot): seq<string> {
    (if s.monthlyAvailable then [] else ["monthly-context-v1"]) + MissingFrom(s, 0)
  }

  function EventKnown(e: Event): bool {
    e.state == Some(Some("available")) && e.coverage == Some(Some("attested_complete"))
  }

  /** `event.get("reason_code", event.get("coverage", ""))` */
  function EventDetail(e: Event): Option<string> {
    if e.reasonCode.Some? then e.reasonCode.value else if e.coverage.Some? then e.coverage.value else Some("")
  }

  // ---------- the engine's closings ----------

  function GateForReason(reason: string): Reason {
    if reason == "opening_interval_missing" then M15ConfirmationUnavailable
    else if reason == "same_direction_fvg_unavailable" then TriggerPending
    else if reason in {"ambiguous_dual_breach", "not_a_unique_range_edge", "no_unique_confirmed_failed_break"}
    then TriggerRejected
    else if reason in {"confirmation_too_late_for_next_interval", "fvg_interval_mismatch", "invalid_geometry",
                       "opening_range_geometry", "snapshot_cutoff_after_entry", "target_not_ahead", "zero_range"}
    then TriggerInvalidated
    else if reason == "no_confirmation_before_expiry" then TriggerExpired
    else TechnicalSetupAbsent
  }

  predicate Admitted(entries: seq<Entry>, e: Evaluation) {
    exists k :: 0 <= k < |entries| && entries[k].strategy == e.strategy && entries[k].definition == e.definition
        && entries[k].role == e.role
  }

  predicate Attributable(entries: seq<Entry>, e: Evaluation) {
    Admitted(entries, e) && e.role.SetupRole? && e.output.HasSetup?
  }

  /** What the loop closes for one evaluation. */
  function EvaluationClosing(entries: seq<Entry>, e: Evaluation): seq<Closing> {
    if !Admitted(entries, e) then [Closing(StrategyNotAdmittedForInstrument, e.strategy)]
    else if !e.role.SetupRole? then [Closing(StrategyRoleCannotOriginateIntent, e.strategy)]
    else if e.output.Unavailable? then [Closing(GateForReason(e.output.reason), e.strategy + ":" + e.output.reason)]
    else []
  }

  function EvaluationClosings(entries: seq<Entry>, evaluations: seq<Evaluation>): seq<Closing> {
    if evaluations == [] then []
    else
      EvaluationClosings(entries, evaluations[..|evaluations| - 1])
      + EvaluationClosing(entries, evaluations[|evaluations| - 1])
  }

  function Attributed(entries: seq<Entry>, evaluations: seq<Evaluation>): (a: seq<Evaluation>)
    ensures forall k :: 0 <= k < |a| ==> a[k].output.HasSetup?
  {
    if evaluations == [] then []
    else
      var rest := Attributed(entries, evaluations[..|evaluations| - 1]);
      var last := evaluations[|evaluations| - 1];
      if Attributable(entries, last) then rest + [last] else rest
  }

  function M15Setups(attributed: seq<Evaluation>): (m: seq<Evaluation>)
    requires forall k :: 0 <= k < |attributed| ==> attributed[k].output.HasSetup?
    ensures forall k :: 0 <= k < |m| ==> m[k].output.HasSetup?
    ensures |m| <= |attributed|
  {
    if attributed == [] then []
    else
      var rest := M15Setups(attributed[..|attributed| - 1]);
      var last := attributed[|attributed| - 1];
      if last.output.setup.m15 then rest + [last] else rest
  }

  function Evaluated(evaluations: seq<Evaluation>, strategy: string): bool {
    exists k :: 0 <= k < |evaluations| && evaluations[k].strategy == strategy
  }

  function Unevaluated(entries: seq<Entry>, evaluations: seq<Evaluation>): seq<string> {
    if entries == [] then []
    else
      var last := entries[|entries| - 1];
      Unevaluated(entries[..|entries| - 1], evaluations)
      + if Evaluated(evaluations, last.strategy) then [] else [last.strategy]
  }

  /** The evidence ids required by the entry of an evaluation. */
  function RequiredBy(entries: seq<Entry>, e: Evaluation): seq<string> {
    if entries == [] then []
    else
      var last := entries[|entries| - 1];
      if last.strategy == e.strategy && last.definition == e.definition && last.role == e.role then last.required
      else RequiredBy(entries[..|entries| - 1], e)
  }

  function RequiredIds(entries: seq<Entry>, attributed: seq<Evaluation>): seq<string> {
    if attributed == [] then []
    else RequiredIds(entries, attributed[..|attributed| - 1]) + RequiredBy(entries, attributed[|attributed| - 1])
  }

  function If(c: bool, reason: Reason, detail: string): seq<Closing> {
    if c then [Closing(reason, detail)] else []
  }

  function SetupOf(m15: seq<Evaluation>): Option<Setup>
    requires forall k :: 0 <= k < |m15| ==> m15[k].output.HasSetup?
  {
    if |m15| == 1 then Some(m15[0].output.setup) else None
  }

  predicate CompleteCost(cost: Option<Cost>) {
    && cost.Some? && cost.value.spread.Some? && cost.value.commission.Some?
    && cost.value.slippage.Some? && cost.value.financing.Some?
  }

  function AbsReal(x: real): real {
    if x < 0.0 then -x else x
  }

  function StopDistance(s: Setup): real {
    AbsReal(s.reference - s.stop)
  }

  function Gross(s: Setup): real
    requires StopDistance(s) > 0.0
  {
    AbsReal(s.target - s.reference) / StopDistance(s)
  }

  function Sum(values: seq<real>): real {
    if values == [] then 0.0 else Sum(values[..|values| - 1]) + values[|values| - 1]
  }

  /** Every component counts, also one the check for completeness does not name. */
  function Net(s: Setup, cost: Cost): real
    requires StopDistance(s) > 0.0 && CompleteCost(Some(cost))
  {
    var named := cost.spread.value + cost.commission.value + cost.slippage.value + cost.financing.value;
    Gross(s) - (named + Sum(cost.others)) / StopDistance(s)
  }

  function RewardClosings(input: Input, setup: Option<Setup>, m15: nat, format: real -> string): seq<Closing> {
    if setup.Some? && CompleteCost(input.cost) then
      if StopDistance(setup.value) <= 0.0 then [Closing(UnsupportedIntentShape, "invalid exact geometry")]
      else
        If(input.cost.value.spread.value / StopDistance(setup.value) > 0.1, SpreadExceedsStrategyLimit, "")
        + If(Net(setup.value, input.cost.value) <= 0.0, NetRewardNonpositive,
            format(Net(setup.value, input.cost.value)))
    else If(m15 <= 1, NetRewardNonpositive, "unknown")
  }

  predicate LegsFit(legs: seq<Leg>, setup: Option<Setup>) {
    && (forall k :: 0 <= k < |legs| ==> legs[k].available)
    && (setup.Some? ==> |legs| == 2 && legs[0].long == setup.value.long && legs[1].long == !setup.value.long)
  }

  function CapacityClosings(capacity: Option<Capacity>, setup: Option<Setup>): seq<Closing> {
    if capacity.None? then
      [Closing(CapacityAssessmentMissing, ""), Closing(AggregateCapacityExceeded, "unknown"),
       Closing(CurrencyDirectionCapacityExceeded, "unknown")]
    else
      If(capacity.value.aggregate != "available", AggregateCapacityExceeded, capacity.value.aggregate)
      + If(!LegsFit(capacity.value.legs, setup), CurrencyDirectionCapacityExceeded, "")
  }

  function TimingClosings(setup: Option<Setup>): seq<Closing> {
    if setup.None? then []
    else match setup.value.timing
      case Malformed => [Closing(UnsupportedIntentShape, "invalid completed-candle timestamps")]
      case NotSuccessor => [Closing(UnsupportedIntentShape, "entry must be registered M15 successor")]
      case Successor => []
  }

  /** Evaluations that are missing, and the shape of the attributed setups. */
  function ShapeClosings(input: Input, attributed: nat, m15: nat, setup: Option<Setup>): seq<Closing> {
    var unevaluated := Texts.SortedSet(Unevaluated(input.entries, input.evaluations));
    var missing := Missing(input.snapshot);
    If(unevaluated != [], TechnicalSetupAbsent, "missing evaluations:" + Texts.Join(unevaluated, ","))
    + If(missing != [], RequiredTimeframeUnavailable, Texts.Join(missing, ","))
    + If(m15 != attributed, M15ConfirmationUnavailable, "v2 has no H1-to-M15 entry adapter")
    + If(m15 != attributed, UnsupportedIntentShape, "only exact Phase 5 M15 setup geometry is supported")
    + If(m15 > 1, ConflictingEligibleSetups, "exactly one originatable setup required")
    + TimingClosings(setup)
  }

  /** Required evidence, the event state and the cost record. */
  function EvidenceClosings(input: Input, required: seq<string>): seq<Closing> {
    var event := input.snapshot.event;
    var active := Texts.Sort(event.active);
    If(required != [], RequiredEvidenceNotReady, "method v2 defines no Phase 7 requirements")
    + If(required == [] && input.evidence.Some?, InputIntegrityFailure, "unrequired evidence packet")
    + If(!EventKnown(event), EventStateUnknown, TextOf(EventDetail(event)))
    + If(active != [], EventWindowBlocked, Texts.Join(active, ","))
    + If(!CompleteCost(input.cost), CostEvidenceMissing, "all exact components required")
    + If(input.cost.None? || input.cost.value.spread.None?, SpreadUnknown, "exact spread required")
    + If(input.cost.Some? && input.cost.value.staleAfter < input.snapshot.cutoff, CostEvidenceStale,
         if input.cost.Some? then input.cost.value.staleText else "")
  }

  /** The closings behind the evaluation loop, in the engine's order. */
  function LaterClosings(input: Input, format: real -> string): seq<Closing> {
    var attributed := Attributed(input.entries, input.evaluations);
    var m15 := M15Setups(attributed);
    var setup := SetupOf(m15);
    ShapeClosings(input, |attributed|, |m15|, setup)
    + EvidenceClosings(input, RequiredIds(input.entries, attributed))
    + RewardClosings(input, setup, |m15|, format)
    + CapacityClosings(input.capacity, setup)
    + If(input.duplicate, UnchangedDuplicateIntent, "")
  }

  function Closings(input: Input, format: real -> string): seq<Closing> {
    If(input.entries == [], NoEconomicallyAdmittedStrategy, "canonical eligibility is empty")
    + EvaluationClosings(input.entries, input.evaluations)
    + LaterClosings(input, format)
  }

  /** Whether a candidate is offered. */
  predicate OffersCandidate(input: Input, format: real -> string) {
    Primary(Closings(input, format)).None? && SetupOf(M15Setups(Attributed(input.entries, input.evaluations))).Some?
  }
}
