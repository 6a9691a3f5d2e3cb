/** The assessment as a record, and the frozen projections of the canonical empty input written independently. */
module GatesLegacy {
  import opened Rows
  import opened Gates
  import opened GatesTheorems
  import Texts

  datatype Htf = Trend(value: Json) | Whole(value: Json) | NoBlock

  datatype Side = Side(
    supporting: seq<string>, opposing: seq<string>, pending: seq<(string, string)>, rejected: seq<(string, string)>)

  datatype Assessment = Assessment(
    open: bool, cutoff: int, marketAvailable: bool, htf: seq<Htf>, monthly: Json, macro: Json, event: Json,
    zones: seq<(string, Json)>, entries: seq<Entry>, bull: Side, bear: Side, setup: Option<Setup>,
    gross: Option<real>, net: Option<real>, cost: Option<Cost>, capacity: Option<Capacity>,
    primary: Option<Reason>, gates: seq<(Reason, Gate)>)

  // ---------- the engine's record ----------

  function HtfOf(s: Snapshot, timeframe: string): Htf {
    if timeframe !in s.granularities then NoBlock
    else if s.granularities[timeframe].trend.Some? then Trend(s.granularities[timeframe].trend.value)
    else Whole(s.granularities[timeframe].whole)
  }

  function Tagged(timeframe: string, zones: seq<Json>): seq<(string, Json)> {
    if zones == [] then [] else Tagged(timeframe, zones[..|zones| - 1]) + [(timeframe, zones[|zones| - 1])]
  }

  function ZonesOf(s: Snapshot, timeframe: string): seq<(string, Json)> {
    if timeframe in s.granularities then Tagged(timeframe, s.granularities[timeframe].zones) else []
  }

  function PairLess(a: (string, string), b: (string, string)): bool {
    Texts.Less(a.0, b.0) || (a.0 == b.0 && Texts.Less(a.1, b.1))
  }

  function InsertPair(sorted: seq<(string, string)>, x: (string, string)): seq<(string, string)> {
    if sorted == [] || PairLess(x, sorted[0]) then [x] + sorted else [sorted[0]] + InsertPair(sorted[1..], x)
  }

  /** Unavailable evaluations whose gate is among `gates`, sorted. */
  function Withheld(entries: seq<Entry>, evaluations: seq<Evaluation>, gates: set<Reason>): seq<(string, string)> {
    if evaluations == [] then []
    else
      var rest := Withheld(entries, evaluations[..|evaluations| - 1], gates);
      var e := evaluations[|evaluations| - 1];
      if Admitted(entries, e) && e.role.SetupRole? && e.output.Unavailable? && GateForReason(e.output.reason) in gates
      then InsertPair(rest, (e.identity, e.output.reason)) else rest
  }

  function Directed(attributed: seq<Evaluation>, long: bool): seq<string>
    requires forall k :: 0 <= k < |attributed| ==> attributed[k].output.HasSetup?
  {
    if attributed == [] then []
    else
      var rest := Directed(attributed[..|attributed| - 1], long);
      var e := attributed[|attributed| - 1];
      if e.output.setup.long == long then rest + [e.identity] else rest
  }

  function SideOf(input: Input, long: bool): Side {
    var attributed := Attributed(input.entries, input.evaluations);
    Side(Texts.Sort(Directed(attributed, long)), Texts.Sort(Directed(attributed, !long)),
         Withheld(input.entries, input.evaluations, {TriggerPending}),
         Withheld(input.entries, input.evaluations, {TriggerRejected, TriggerInvalidated, TriggerExpired}))
  }

  function GateList(gate: Reason -> Gate, reasons: seq<Reason>): seq<(Reason, Gate)> {
    if reasons == [] then []
    else GateList(gate, reasons[..|reasons| - 1]) + [(reasons[|reasons| - 1], gate(reasons[|reasons| - 1]))]
  }

  function EngineGate(closings: seq<Closing>): Reason -> Gate {
    (r: Reason) => GateAfter(closings, r)
  }

  /** The record `build_assessment` returns. */
  function Project(input: Input, format: real -> string): Assessment {
    var closings := Closings(input, format);
    var setup := SetupOf(M15Setups(Attributed(input.entries, input.evaluations)));
    var rewarded := setup.Some? && CompleteCost(input.cost) && StopDistance(setup.value) > 0.0;
    var missing := Missing(input.snapshot);
    var s := input.snapshot;
    Assessment(
      Primary(closings).None?, s.cutoff, missing == [], [HtfOf(s, "W"), HtfOf(s, "D"), HtfOf(s, "H4")],
      s.monthly, s.macro, s.event.whole,
      ZonesOf(s, "W") + ZonesOf(s, "D") + ZonesOf(s, "H4") + ZonesOf(s, "H1"),
      input.entries, SideOf(input, true), SideOf(input, false), setup,
      if rewarded then Some(Gross(setup.value)) else None,
      if rewarded then Some(Net(setup.value, input.cost.value)) else None,
      input.cost, input.capacity, Primary(closings), GateList(EngineGate(closings), REASONS))
  }

  // ---------- the frozen projections ----------

  predicate HasBlock(s: Snapshot, timeframe: string) {
    timeframe in s.granularities && s.granularities[timeframe].state == "available"
  }

  /** Version 1 filters the timeframes and then puts the monthly context in front. */
  function V1Missing(s: Snapshot): seq<string> {
    var missing := FilterMissing(s, TIMEFRAMES);
    if !s.monthlyAvailable then ["monthly-context-v1"] + missing else missing
  }

  function FilterMissing(s: Snapshot, timeframes: seq<string>): seq<string> {
    if timeframes == [] then []
    else
      var last := timeframes[|timeframes| - 1];
      FilterMissing(s, timeframes[..|timeframes| - 1]) + if HasBlock(s, last) then [] else [last]
  }

  /** Version 1.1 appends the monthly context to an empty list and then extends it by the timeframes. */
  function V11Missing(s: Snapshot): seq<string> {
    Extend(s, if s.monthlyAvailable then [] else ["monthly-context-v1"], TIMEFRAMES)
  }

  function Extend(s: Snapshot, list: seq<string>, timeframes: seq<string>): seq<string>
    decreases |timeframes|
  {
    if timeframes == [] then list
    else Extend(s, if HasBlock(s, timeframes[0]) then list else list + [timeframes[0]], timeframes[1..])
  }

  /** The trend of a block, else the block, else a stand-in for the missing block. */
  function V1Htf(s: Snapshot, timeframes: seq<string>): seq<Htf> {
    if timeframes == [] then []
    else
      var found := if timeframes[0] in s.granularities then Some(s.granularities[timeframes[0]]) else None;
      [match found
       case None => NoBlock
       case Some(block) => match block.trend
         case Some(trend) => Trend(trend)
         case None => Whole(block.whole)] + V1Htf(s, timeframes[1..])
  }

  /** The nested loop that appends every zone of every timeframe. */
  function V1Zones(s: Snapshot, zones: seq<(string, Json)>, timeframes: seq<string>): seq<(string, Json)>
    decreases |timeframes|
  {
    if timeframes == [] then zones
    else
      var found := if timeframes[0] in s.granularities then s.granularities[timeframes[0]].zones else [];
      V1Zones(s, AppendZones(zones, timeframes[0], found), timeframes[1..])
  }

  function AppendZones(zones: seq<(string, Json)>, timeframe: string, found: seq<Json>): seq<(string, Json)>
    decreases |found|
  {
    if found == [] then zones else AppendZones(zones + [(timeframe, found[0])], timeframe, found[1..])
  }

  /** The `closed` dictionary of version 1.1; null is a possible detail of the event gate. */
  function V11Closed(s: Snapshot): map<Reason, Option<string>> {
    var closed := WithMissing(AlwaysClosed(), V11Missing(s));
    WithActive(WithEvent(closed, s.event), Texts.Sort(s.event.active))
  }

  function AlwaysClosed(): map<Reason, Option<string>> {
    map[
      NoEconomicallyAdmittedStrategy := Some("canonical eligibility is empty"),
      SpreadUnknown := Some("exact spread required"),
      CostEvidenceMissing := Some("all exact components required"),
      NetRewardNonpositive := Some("unknown"),
      CapacityAssessmentMissing := Some(""),
      AggregateCapacityExceeded := Some("unknown"),
      CurrencyDirectionCapacityExceeded := Some("unknown")]
  }

  function WithMissing(closed: map<Reason, Option<string>>, missing: seq<string>): map<Reason, Option<string>> {
    if missing != [] then closed[RequiredTimeframeUnavailable := Some(Texts.Join(missing, ","))] else closed
  }

  function WithEvent(closed: map<Reason, Option<string>>, event: Event): map<Reason, Option<string>> {
    if !EventKnown(event) then closed[EventStateUnknown := EventDetail(event)] else closed
  }

  function WithActive(closed: map<Reason, Option<string>>, active: seq<string>): map<Reason, Option<string>> {
    if active != [] then closed[EventWindowBlocked := Some(Texts.Join(active, ","))] else closed
  }

  function V11Gate(s: Snapshot): Reason -> Gate {
    (r: Reason) => if r in V11Closed(s) then Gate(true, V11Closed(s)[r]) else Gate(false, Some(""))
  }

  /** `build_v11_empty_assessment` */
  function BuildV11Empty(s: Snapshot): Assessment {
    Assessment(
      false, s.cutoff, V1Missing(s) == [], V1Htf(s, ["W", "D", "H4"]),
      s.monthly, s.macro, s.event.whole, V1Zones(s, [], ["W", "D", "H4", "H1"]),
      [], Side([], [], [], []), Side([], [], [], []), None, None, None, None, None,
      Some(NoEconomicallyAdmittedStrategy), GateList(V11Gate(s), REASONS))
  }

  function EmptyInput(s: Snapshot): Input {
    Input(s, [], [], None, None, None, false)
  }

  // ---------- the market fields agree ----------

  lemma {:induction false} ExtendAppends(s: Snapshot, list: seq<string>, timeframes: seq<string>)
    ensures Extend(s, list, timeframes) == list + Extend(s, [], timeframes)
    decreases |timeframes|
  {
    if timeframes != [] {
      var kept: seq<string> := if HasBlock(s, timeframes[0]) then [] else [timeframes[0]];
      ExtendAppends(s, list + kept, timeframes[1..]);
      ExtendAppends(s, kept, timeframes[1..]);
      assert list + kept == if HasBlock(s, timeframes[0]) then list else list + [timeframes[0]];
      assert [] + kept == kept;
    }
  }

  lemma {:induction false} ExtendIsMissing(s: Snapshot, k: nat)
    requires k <= |TIMEFRAMES|
    ensures Extend(s, [], TIMEFRAMES[k..]) == MissingFrom(s, k)
    decreases |TIMEFRAMES| - k
  {
    hide TIMEFRAMES;
    if k < |TIMEFRAMES| {
      ExtendIsMissing(s, k + 1);
      assert TIMEFRAMES[k..][1..] == TIMEFRAMES[k + 1..];
      var kept: seq<string> := if HasBlock(s, TIMEFRAMES[k]) then [] else [TIMEFRAMES[k]];
      assert [] + [TIMEFRAMES[k]] == [TIMEFRAMES[k]];
      assert Extend(s, [], TIMEFRAMES[k..]) == Extend(s, kept, TIMEFRAMES[k + 1..]);
      ExtendAppends(s, kept, TIMEFRAMES[k + 1..]);
    }
  }

  lemma {:induction false} FilterIsMissing(s: Snapshot, k: nat)
    requires k <= |TIMEFRAMES|
    ensures FilterMissing(s, TIMEFRAMES[..k]) + MissingFrom(s, k) == MissingFrom(s, 0)
    decreases k
  {
    hide *;
    NoneFiltered(s);
    if k > 0 {
      FilterIsMissing(s, k - 1);
      FilterStep(s, k - 1);
    }
  }

  lemma NoneFiltered(s: Snapshot)
    ensures FilterMissing(s, TIMEFRAMES[..0]) == [] && [] + MissingFrom(s, 0) == MissingFrom(s, 0)
  {
  }

  lemma FilterStep(s: Snapshot, k: nat)
    requires k < |TIMEFRAMES|
    ensures FilterMissing(s, TIMEFRAMES[..k + 1]) + MissingFrom(s, k + 1) ==
        FilterMissing(s, TIMEFRAMES[..k]) + MissingFrom(s, k)
  {
    hide TIMEFRAMES;
    assert TIMEFRAMES[..k + 1][..k] == TIMEFRAMES[..k];
  }

  /** Three ways of listing what is missing give one list. */
  lemma MissingAgree(s: Snapshot)
    ensures V1Missing(s) == Missing(s) && V11Missing(s) == Missing(s)
  {
    hide TIMEFRAMES, MissingFrom, FilterMissing, Extend;
    FilterIsMissing(s, |TIMEFRAMES|);
    ExtendIsMissing(s, 0);
    NoneBehind(s);
    assert TIMEFRAMES[..|TIMEFRAMES|] == TIMEFRAMES && TIMEFRAMES[0..] == TIMEFRAMES;
    ExtendAppends(s, if s.monthlyAvailable then [] else ["monthly-context-v1"], TIMEFRAMES);
  }

  lemma NoneBehind(s: Snapshot)
    ensures MissingFrom(s, |TIMEFRAMES|) == []
  {
  }

  lemma HtfAgree(s: Snapshot)
    ensures V1Htf(s, ["W", "D", "H4"]) == [HtfOf(s, "W"), HtfOf(s, "D"), HtfOf(s, "H4")]
  {
    hide HtfOf;
    OneHtf(s, "W", ["D", "H4"]);
    OneHtf(s, "D", ["H4"]);
    OneHtf(s, "H4", []);
    assert V1Htf(s, []) == [];
  }

  lemma OneHtf(s: Snapshot, timeframe: string, rest: seq<string>)
    ensures V1Htf(s, [timeframe] + rest) == [HtfOf(s, timeframe)] + V1Htf(s, rest)
  {
    assert ([timeframe] + rest)[1..] == rest;
  }

  lemma {:induction false} AppendIsTagged(zones: seq<(string, Json)>, timeframe: string, found: seq<Json>, k: nat)
    requires k <= |found|
    ensures AppendZones(zones + Tagged(timeframe, found[..k]), timeframe, found[k..]) ==
        zones + Tagged(timeframe, found)
    decreases |found| - k
  {
    if k == |found| {
      assert found[..k] == found;
    } else {
      AppendIsTagged(zones, timeframe, found, k + 1);
      assert found[..k + 1][..k] == found[..k] && found[k..][1..] == found[k + 1..];
      assert zones + Tagged(timeframe, found[..k]) + [(timeframe, found[k])] ==
          zones + Tagged(timeframe, found[..k + 1]);
    }
  }

  lemma OneZones(s: Snapshot, zones: seq<(string, Json)>, timeframe: string, rest: seq<string>)
    ensures V1Zones(s, zones, [timeframe] + rest) == V1Zones(s, zones + ZonesOf(s, timeframe), rest)
  {
    hide AppendZones, Tagged;
    var found := if timeframe in s.granularities then s.granularities[timeframe].zones else [];
    assert ([timeframe] + rest)[1..] == rest;
    AppendIsTagged(zones, timeframe, found, 0);
    NoTags(zones, timeframe, found);
  }

  lemma NoTags(zones: seq<(string, Json)>, timeframe: string, found: seq<Json>)
    ensures zones + Tagged(timeframe, found[..0]) == zones && found[0..] == found && Tagged(timeframe, []) == []
  {
  }

  lemma ZonesAgree(s: Snapshot)
    ensures V1Zones(s, [], ["W", "D", "H4", "H1"]) ==
        ZonesOf(s, "W") + ZonesOf(s, "D") + ZonesOf(s, "H4") + ZonesOf(s, "H1")
  {
    hide ZonesOf;
    var w := ZonesOf(s, "W");
    OneZones(s, [], "W", ["D", "H4", "H1"]);
    assert [] + w == w;
    OneZones(s, w, "D", ["H4", "H1"]);
    OneZones(s, w + ZonesOf(s, "D"), "H4", ["H1"]);
    OneZones(s, w + ZonesOf(s, "D") + ZonesOf(s, "H4"), "H1", []);
    assert ["W"] + ["D", "H4", "H1"] == ["W", "D", "H4", "H1"];
    assert ["D"] + ["H4", "H1"] == ["D", "H4", "H1"];
    assert ["H4"] + ["H1"] == ["H4", "H1"];
    assert ["H1"] + [] == ["H1"];
  }

  // ---------- the twins agree ----------

  /** What the engine closes for the canonical empty input: ten closings, three of them conditional. */
  function FirstFour(s: Snapshot): seq<Closing> {
    var missing := Missing(s);
    var active := Texts.Sort(s.event.active);
    If(true, NoEconomicallyAdmittedStrategy, "canonical eligibility is empty")
    + If(missing != [], RequiredTimeframeUnavailable, Texts.Join(missing, ","))
    + If(!EventKnown(s.event), EventStateUnknown, TextOf(EventDetail(s.event)))
    + If(active != [], EventWindowBlocked, Texts.Join(active, ","))
  }

  function EmptyClosings(s: Snapshot): seq<Closing> {
    FirstFour(s)
    + [Closing(CostEvidenceMissing, "all exact components required"), Closing(SpreadUnknown, "exact spread required"),
       Closing(NetRewardNonpositive, "unknown"), Closing(CapacityAssessmentMissing, ""),
       Closing(AggregateCapacityExceeded, "unknown"), Closing(CurrencyDirectionCapacityExceeded, "unknown")]
  }

  lemma Glue(a: seq<Closing>, b: seq<Closing>, c: seq<Closing>, d: seq<Closing>, e: seq<Closing>, f: seq<Closing>,
      g: seq<Closing>)
    ensures ([] + a + [] + [] + [] + []) + ([] + [] + b + c + d + e + []) + f + g + [] == a + b + c + d + e + f + g
  {
  }

  lemma EmptyFacts(s: Snapshot, format: real -> string)
    ensures Attributed([], []) == [] && M15Setups([]) == [] && SetupOf([]).None?
    ensures Texts.SortedSet(Unevaluated([], [])) == [] && RequiredIds([], []) == []
    ensures TimingClosings(None) == []
    ensures RewardClosings(EmptyInput(s), None, 0, format) == [Closing(NetRewardNonpositive, "unknown")]
    ensures CapacityClosings(None, None) ==
              [Closing(CapacityAssessmentMissing, ""), Closing(AggregateCapacityExceeded, "unknown"),
               Closing(CurrencyDirectionCapacityExceeded, "unknown")]
  {
  }

  lemma LaterOfEmpty(s: Snapshot, format: real -> string)
    ensures LaterClosings(EmptyInput(s), format) ==
              If(Missing(s) != [], RequiredTimeframeUnavailable, Texts.Join(Missing(s), ","))
              + If(!EventKnown(s.event), EventStateUnknown, TextOf(EventDetail(s.event)))
              + If(Texts.Sort(s.event.active) != [], EventWindowBlocked, Texts.Join(Texts.Sort(s.event.active), ","))
              + [Closing(CostEvidenceMissing, "all exact components required")]
              + [Closing(SpreadUnknown, "exact spread required")]
              + [Closing(NetRewardNonpositive, "unknown")]
              + [Closing(CapacityAssessmentMissing, ""), Closing(AggregateCapacityExceeded, "unknown"),
                 Closing(CurrencyDirectionCapacityExceeded, "unknown")]
  {
    hide Missing, EventKnown, EventDetail, Texts.Sort, Texts.Join, TextOf, Texts.SortedSet, Attributed, M15Setups,
      SetupOf, Unevaluated, RequiredIds, RewardClosings, CapacityClosings, TimingClosings;
    EmptyFacts(s, format);
    Glue(If(Missing(s) != [], RequiredTimeframeUnavailable, Texts.Join(Missing(s), ",")),
         If(!EventKnown(s.event), EventStateUnknown, TextOf(EventDetail(s.event))),
         If(Texts.Sort(s.event.active) != [], EventWindowBlocked, Texts.Join(Texts.Sort(s.event.active), ",")),
         [Closing(CostEvidenceMissing, "all exact components required")],
         [Closing(SpreadUnknown, "exact spread required")],
         [Closing(NetRewardNonpositive, "unknown")],
         [Closing(CapacityAssessmentMissing, ""), Closing(AggregateCapacityExceeded, "unknown"),
          Closing(CurrencyDirectionCapacityExceeded, "unknown")]);
  }

  lemma Six(a: Closing, b: Closing, c: Closing, d: Closing, e: Closing, f: Closing, x: seq<Closing>)
    ensures x + [a] + [b] + [c] + [d, e, f] == x + [a, b, c, d, e, f]
  {
  }

  lemma Front(a: seq<Closing>, b: seq<Closing>, c: seq<Closing>, d: seq<Closing>, e: seq<Closing>)
    ensures a + [] + (b + c + d + e) == a + b + c + d + e
  {
  }

  lemma EmptyClosingsAre(s: Snapshot, format: real -> string)
    ensures Closings(EmptyInput(s), format) == EmptyClosings(s)
  {
    hide Missing, EventKnown, EventDetail, Texts.Sort, Texts.Join, TextOf, LaterClosings;
    LaterOfEmpty(s, format);
    var m := If(Missing(s) != [], RequiredTimeframeUnavailable, Texts.Join(Missing(s), ","));
    var v := If(!EventKnown(s.event), EventStateUnknown, TextOf(EventDetail(s.event)));
    var w := If(Texts.Sort(s.event.active) != [], EventWindowBlocked, Texts.Join(Texts.Sort(s.event.active), ","));
    Six(Closing(CostEvidenceMissing, "all exact components required"), Closing(SpreadUnknown, "exact spread required"),
        Closing(NetRewardNonpositive, "unknown"), Closing(CapacityAssessmentMissing, ""),
        Closing(AggregateCapacityExceeded, "unknown"), Closing(CurrencyDirectionCapacityExceeded, "unknown"),
        m + v + w);
    Front(If(true, NoEconomicallyAdmittedStrategy, "canonical eligibility is empty"), m, v, w,
          [Closing(CostEvidenceMissing, "all exact components required"),
           Closing(SpreadUnknown, "exact spread required"),
           Closing(NetRewardNonpositive, "unknown"), Closing(CapacityAssessmentMissing, ""),
           Closing(AggregateCapacityExceeded, "unknown"), Closing(CurrencyDirectionCapacityExceeded, "unknown")]);
  }

  lemma GateStep(closings: seq<Closing>, c: bool, reason: Reason, detail: string, r: Reason)
    ensures GateAfter(closings + If(c, reason, detail), r) ==
              if c && r == reason then CloseGate(GateAfter(closings, r), detail) else GateAfter(closings, r)
  {
    hide CloseGate;
    var more := closings + If(c, reason, detail);
    if c {
      assert more[..|closings|] == closings;
    } else {
      assert more == closings;
    }
  }

  lemma FirstClose(detail: string)
    ensures CloseGate(Gate(false, Some("")), detail) == Gate(true, Some(detail))
  {
    hide Merge;
    FirstDetail(detail);
  }

  function AlwaysDetail(r: Reason): string {
    if r == NoEconomicallyAdmittedStrategy then "canonical eligibility is empty"
    else if r == SpreadUnknown then "exact spread required"
    else if r == CostEvidenceMissing then "all exact components required"
    else if r == CapacityAssessmentMissing then ""
    else "unknown"
  }

  const ALWAYS: set<Reason> :=
    {NoEconomicallyAdmittedStrategy, SpreadUnknown, CostEvidenceMissing, NetRewardNonpositive,
     CapacityAssessmentMissing, AggregateCapacityExceeded, CurrencyDirectionCapacityExceeded}

  lemma AlwaysKeys(r: Reason)
    ensures r in AlwaysClosed() <==> r in ALWAYS
    ensures r in ALWAYS ==> AlwaysClosed()[r] == Some(AlwaysDetail(r))
    ensures NoEconomicallyAdmittedStrategy in ALWAYS && InputIntegrityFailure !in ALWAYS
    ensures RequiredTimeframeUnavailable !in ALWAYS && EventStateUnknown !in ALWAYS && EventWindowBlocked !in ALWAYS
  {
  }

  function V11Detail(s: Snapshot, r: Reason): Option<string> {
    if r == RequiredTimeframeUnavailable then Some(Texts.Join(Missing(s), ","))
    else if r == EventStateUnknown then EventDetail(s.event)
    else if r == EventWindowBlocked then Some(Texts.Join(Texts.Sort(s.event.active), ","))
    else Some(AlwaysDetail(r))
  }

  /** Which reasons the frozen projection closes, and with what. */
  lemma V11Keys(s: Snapshot, r: Reason)
    ensures r in V11Closed(s) <==>
              || r in ALWAYS
              || (r == RequiredTimeframeUnavailable && Missing(s) != [])
              || (r == EventStateUnknown && !EventKnown(s.event))
              || (r == EventWindowBlocked && Texts.Sort(s.event.active) != [])
    ensures r in V11Closed(s) ==> V11Closed(s)[r] == V11Detail(s, r)
  {
    hide Missing, V11Missing, EventKnown, EventDetail, Texts.Sort, Texts.Join, AlwaysClosed, ALWAYS, AlwaysDetail;
    AlwaysKeys(r);
    MissingAgree(s);
  }

  lemma FourGates(s: Snapshot, r: Reason)
    ensures GateAfter(FirstFour(s), r) ==
              if r == NoEconomicallyAdmittedStrategy
              then CloseGate(Gate(false, Some("")), "canonical eligibility is empty")
              else if r == RequiredTimeframeUnavailable && Missing(s) != []
              then CloseGate(Gate(false, Some("")), Texts.Join(Missing(s), ","))
              else if r == EventStateUnknown && !EventKnown(s.event)
              then CloseGate(Gate(false, Some("")), TextOf(EventDetail(s.event)))
              else if r == EventWindowBlocked && Texts.Sort(s.event.active) != []
              then CloseGate(Gate(false, Some("")), Texts.Join(Texts.Sort(s.event.active), ","))
              else Gate(false, Some(""))
  {
    hide Missing, EventKnown, EventDetail, Texts.Sort, Texts.Join, GateAfter, CloseGate, If;
    var missing, active := Missing(s), Texts.Sort(s.event.active);
    var c1 := If(true, NoEconomicallyAdmittedStrategy, "canonical eligibility is empty");
    var c2 := c1 + If(missing != [], RequiredTimeframeUnavailable, Texts.Join(missing, ","));
    var c3 := c2 + If(!EventKnown(s.event), EventStateUnknown, TextOf(EventDetail(s.event)));
    NoClosings(c1, r);
    GateStep([], true, NoEconomicallyAdmittedStrategy, "canonical eligibility is empty", r);
    GateStep(c1, missing != [], RequiredTimeframeUnavailable, Texts.Join(missing, ","), r);
    GateStep(c2, !EventKnown(s.event), EventStateUnknown, TextOf(EventDetail(s.event)), r);
    GateStep(c3, active != [], EventWindowBlocked, Texts.Join(active, ","), r);
  }

  lemma NoClosings(c: seq<Closing>, r: Reason)
    ensures GateAfter([], r) == Gate(false, Some("")) && [] + c == c
  {
  }

  predicate Costly(r: Reason) {
    r == CostEvidenceMissing || r == SpreadUnknown || r == NetRewardNonpositive || r == CapacityAssessmentMissing
    || r == AggregateCapacityExceeded || r == CurrencyDirectionCapacityExceeded
  }

  lemma SixGates(c4: seq<Closing>, r: Reason)
    ensures GateAfter(c4 + [Closing(CostEvidenceMissing, "all exact components required"),
                            Closing(SpreadUnknown, "exact spread required"),
                            Closing(NetRewardNonpositive, "unknown"), Closing(CapacityAssessmentMissing, ""),
                            Closing(AggregateCapacityExceeded, "unknown"),
                            Closing(CurrencyDirectionCapacityExceeded, "unknown")], r)
         == if Costly(r) then CloseGate(GateAfter(c4, r), AlwaysDetail(r)) else GateAfter(c4, r)
  {
    hide GateAfter, CloseGate;
    var c5 := c4 + If(true, CostEvidenceMissing, "all exact components required");
    var c6 := c5 + If(true, SpreadUnknown, "exact spread required");
    var c7 := c6 + If(true, NetRewardNonpositive, "unknown");
    var c8 := c7 + If(true, CapacityAssessmentMissing, "");
    var c9 := c8 + If(true, AggregateCapacityExceeded, "unknown");
    GateStep(c4, true, CostEvidenceMissing, "all exact components required", r);
    GateStep(c5, true, SpreadUnknown, "exact spread required", r);
    GateStep(c6, true, NetRewardNonpositive, "unknown", r);
    GateStep(c7, true, CapacityAssessmentMissing, "", r);
    GateStep(c8, true, AggregateCapacityExceeded, "unknown", r);
    GateStep(c9, true, CurrencyDirectionCapacityExceeded, "unknown", r);
    SixSingles(c4, Closing(CostEvidenceMissing, "all exact components required"),
        Closing(SpreadUnknown, "exact spread required"),
               Closing(NetRewardNonpositive, "unknown"), Closing(CapacityAssessmentMissing, ""),
               Closing(AggregateCapacityExceeded, "unknown"), Closing(CurrencyDirectionCapacityExceeded, "unknown"));
  }

  lemma SixSingles(x: seq<Closing>, a: Closing, b: Closing, c: Closing, d: Closing, e: Closing, f: Closing)
    ensures x + [a] + [b] + [c] + [d] + [e] + [f] == x + [a, b, c, d, e, f]
  {
  }

  lemma EmptyGate(s: Snapshot, r: Reason)
    ensures GateAfter(EmptyClosings(s), r) ==
              if r in V11Closed(s) then Gate(true, Some(TextOf(V11Closed(s)[r]))) else Gate(false, Some(""))
  {
    hide Missing, EventKnown, EventDetail, GateAfter, V11Closed, FirstFour, CloseGate, Texts.Sort, Texts.Join;
    FourGates(s, r);
    SixGates(FirstFour(s), r);
    FirstClose(TextOf(V11Detail(s, r)));
    V11Keys(s, r);
  }

  lemma {:induction false} GateListSame(f: Reason -> Gate, g: Reason -> Gate, reasons: seq<Reason>)
    ensures GateList(f, reasons) == GateList(g, reasons) <==>
        forall k :: 0 <= k < |reasons| ==> f(reasons[k]) == g(reasons[k])
    ensures |GateList(f, reasons)| == |GateList(g, reasons)| == |reasons|
  {
    if reasons != [] {
      var n := |reasons| - 1;
      GateListSame(f, g, reasons[..n]);
      assert GateList(f, reasons)[..n] == GateList(f, reasons[..n]);
      assert GateList(g, reasons)[..n] == GateList(g, reasons[..n]);
    }
  }

  lemma PrimaryOfEmpty(s: Snapshot)
    ensures Primary(EmptyClosings(s)) == Some(NoEconomicallyAdmittedStrategy)
  {
    hide *;
    EmptyGate(s, InputIntegrityFailure);
    EmptyGate(s, NoEconomicallyAdmittedStrategy);
    V11Keys(s, InputIntegrityFailure);
    V11Keys(s, NoEconomicallyAdmittedStrategy);
    AlwaysKeys(InputIntegrityFailure);
    AlwaysKeys(NoEconomicallyAdmittedStrategy);
    FirstIsPrimary(EmptyClosings(s));
  }

  lemma FirstIsPrimary(closings: seq<Closing>)
    requires !GateAfter(closings, InputIntegrityFailure).closed
        && GateAfter(closings, NoEconomicallyAdmittedStrategy).closed
    ensures Primary(closings) == Some(NoEconomicallyAdmittedStrategy)
  {
    hide GateAfter;
    assert PrimaryFrom(closings, 1) == Some(REASONS[1]);
  }

  /** The two boards agree at every reason but one, and there unless the detail is null. */
  lemma GateAgreesIff(s: Snapshot, r: Reason)
    ensures EngineGate(EmptyClosings(s))(r) == V11Gate(s)(r) <==>
              r != EventStateUnknown || EventKnown(s.event) || EventDetail(s.event).Some?
  {
    hide Missing, EventKnown, EventDetail, Texts.Sort, Texts.Join, V11Closed, GateAfter, EmptyClosings, ALWAYS;
    EmptyGate(s, r);
    V11Keys(s, r);
    AlwaysKeys(r);
    AlwaysKeys(EventStateUnknown);
  }

  lemma BoardsAgreeIff(s: Snapshot)
    ensures GateList(EngineGate(EmptyClosings(s)), REASONS) == GateList(V11Gate(s), REASONS) <==>
              EventKnown(s.event) || EventDetail(s.event).Some?
  {
    hide *;
    GateListSame(EngineGate(EmptyClosings(s)), V11Gate(s), REASONS);
    forall r {
      GateAgreesIff(s, r);
    }
    EveryReasonListed(EventStateUnknown);
    var j :| 0 <= j < |REASONS| && REASONS[j] == EventStateUnknown;
  }

  /** The engine on the canonical empty input and the frozen version 1.1 projection agree field for field - exactly
      for the snapshots whose unknown event does not carry a null detail. */
  lemma TwinsAgreeIff(s: Snapshot, format: real -> string)
    ensures Project(EmptyInput(s), format) == BuildV11Empty(s) <==> EventKnown(s.event) || EventDetail(s.event).Some?
  {
    hide *;
    EmptyClosingsAre(s, format);
    PrimaryOfEmpty(s);
    MissingAgree(s);
    HtfAgree(s);
    ZonesAgree(s);
    BoardsAgreeIff(s);
    ProjectEmpty(s, format);
    BuiltEmpty(s);
  }

  /** No market data, and an event the provider left without state and with a null reason. */
  const NullDetail: Snapshot :=
    Snapshot(0, map[], false, "{}", "{}", Event(None, None, Some(None), [], "{}"))

  lemma TwinsDisagree(format: real -> string)
    ensures Project(EmptyInput(NullDetail), format) != BuildV11Empty(NullDetail)
  {
    hide Project, BuildV11Empty;
    TwinsAgreeIff(NullDetail, format);
  }

  lemma ProjectEmpty(s: Snapshot, format: real -> string)
    ensures var closings := Closings(EmptyInput(s), format);
            Project(EmptyInput(s), format) ==
              Assessment(
                Primary(closings).None?, s.cutoff, Missing(s) == [], [HtfOf(s, "W"), HtfOf(s, "D"), HtfOf(s, "H4")],
                s.monthly, s.macro, s.event.whole,
                ZonesOf(s, "W") + ZonesOf(s, "D") + ZonesOf(s, "H4") + ZonesOf(s, "H1"),
                [], Side([], [], [], []), Side([], [], [], []), None, None, None, None, None,
                Primary(closings), GateList(EngineGate(closings), REASONS))
  {
    hide Closings, Primary, GateList, EngineGate, REASONS, ZonesOf, HtfOf, Missing, SideOf;
    NoSides(s);
  }

  lemma BuiltEmpty(s: Snapshot)
    ensures BuildV11Empty(s) ==
              Assessment(
                false, s.cutoff, V1Missing(s) == [], V1Htf(s, ["W", "D", "H4"]),
                s.monthly, s.macro, s.event.whole, V1Zones(s, [], ["W", "D", "H4", "H1"]),
                [], Side([], [], [], []), Side([], [], [], []), None, None, None, None, None,
                Some(NoEconomicallyAdmittedStrategy), GateList(V11Gate(s), REASONS))
  {
    hide V1Missing, V1Htf, V1Zones, GateList, V11Gate, REASONS;
  }

  lemma NoSides(s: Snapshot)
    ensures SideOf(EmptyInput(s), true) == SideOf(EmptyInput(s), false) == Side([], [], [], [])
    ensures SetupOf(M15Setups(Attributed(EmptyInput(s).entries, EmptyInput(s).evaluations))).None?
  {
  }
}
