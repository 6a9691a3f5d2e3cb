/** The engine as it runs: a board of gates closed in place, evaluation by evaluation. */
module GateBoards {
  import opened Rows
  import opened Gates
  import opened GatesTheorems
  import opened GatesLegacy
  import Texts

  class GateBoard {
    var gates: map<Reason, Gate>
    ghost var closings: seq<Closing>

    ghost predicate Valid()
      reads this
    {
      forall r :: r in gates && gates[r] == GateAfter(closings, r)
    }

    /** `_new_gates` */
    constructor ()
      ensures Valid() && closings == []
    {
      gates := map r: Reason | r in REASONS :: Gate(false, Some(""));
      closings := [];
      new;
      forall r
        ensures r in gates && gates[r] == GateAfter(closings, r)
      {
        EveryReasonListed(r);
      }
    }

    /** `_close` */
    method Close(reason: Reason, detail: string)
      requires Valid()
      modifies this
      ensures Valid() && closings == old(closings) + [Closing(reason, detail)]
    {
      hide Merge;
      gates := gates[reason := Gate(true, Some(Merge(TextOf(gates[reason].detail), detail)))];
      closings := closings + [Closing(reason, detail)];
      assert closings[..|closings| - 1] == old(closings);
    }

    method CloseIf(condition: bool, reason: Reason, detail: string)
      requires Valid()
      modifies this
      ensures Valid() && closings == old(closings) + If(condition, reason, detail)
    {
      if condition {
        Close(reason, detail);
      }
    }

    /** `_primary` */
    method PrimaryReason() returns (primary: Option<Reason>)
      requires Valid()
      ensures primary == Primary(closings)
    {
      for k := 0 to |REASONS|
        invariant Primary(closings) == PrimaryFrom(closings, k)
      {
        if gates[REASONS[k]].closed {
          return Some(REASONS[k]);
        }
      }
      primary := None;
    }

    /** The loop over the evaluations. */
    method AttributeEvaluations(entries: seq<Entry>, evaluations: seq<Evaluation>) returns (attributed: seq<Evaluation>)
      requires Valid()
      modifies this
      ensures Valid() && closings == old(closings) + EvaluationClosings(entries, evaluations)
      ensures attributed == Attributed(entries, evaluations)
    {
      hide GateForReason, Admitted;
      attributed := [];
      for k := 0 to |evaluations|
        invariant Valid() && closings == old(closings) + EvaluationClosings(entries, evaluations[..k])
        invariant attributed == Attributed(entries, evaluations[..k])
      {
        assert evaluations[..k + 1][..k] == evaluations[..k];
        var e := evaluations[k];
        if !Admitted(entries, e) {
          Close(StrategyNotAdmittedForInstrument, e.strategy);
        } else if !e.role.SetupRole? {
          Close(StrategyRoleCannotOriginateIntent, e.strategy);
        } else if e.output.Unavailable? {
          Close(GateForReason(e.output.reason), e.strategy + ":" + e.output.reason);
        } else {
          attributed := attributed + [e];
        }
      }
      assert evaluations[..|evaluations|] == evaluations;
    }

    method CloseTiming(setup: Option<Setup>)
      requires Valid()
      modifies this
      ensures Valid() && closings == old(closings) + TimingClosings(setup)
    {
      if setup.Some? {
        CloseIf(setup.value.timing.Malformed?, UnsupportedIntentShape, "invalid completed-candle timestamps");
        CloseIf(setup.value.timing.NotSuccessor?, UnsupportedIntentShape, "entry must be registered M15 successor");
      }
    }

    /** Gross and net reward, when they can be computed. */
    method CloseReward(input: Input, setup: Option<Setup>, m15: nat, format: real -> string)
        returns (reward: Option<(real, real)>)
      requires Valid()
      modifies this
      ensures Valid() && closings == old(closings) + RewardClosings(input, setup, m15, format)
      ensures reward ==
                if setup.Some? && CompleteCost(input.cost) && StopDistance(setup.value) > 0.0
                then Some((Gross(setup.value), Net(setup.value, input.cost.value))) else None
    {
      hide Gross, Net, StopDistance;
      reward := None;
      if setup.Some? && CompleteCost(input.cost) {
        var cost := input.cost.value;
        if StopDistance(setup.value) <= 0.0 {
          Close(UnsupportedIntentShape, "invalid exact geometry");
        } else {
          var net := Net(setup.value, cost);
          reward := Some((Gross(setup.value), net));
          CloseIf(cost.spread.value / StopDistance(setup.value) > 0.1, SpreadExceedsStrategyLimit, "");
          CloseIf(net <= 0.0, NetRewardNonpositive, format(net));
        }
      } else {
        CloseIf(m15 <= 1, NetRewardNonpositive, "unknown");
      }
    }

    method CloseCapacity(capacity: Option<Capacity>, setup: Option<Setup>)
      requires Valid()
      modifies this
      ensures Valid() && closings == old(closings) + CapacityClosings(capacity, setup)
    {
      hide LegsFit;
      if capacity.None? {
        Close(CapacityAssessmentMissing, "");
        Close(AggregateCapacityExceeded, "unknown");
        Close(CurrencyDirectionCapacityExceeded, "unknown");
      } else {
        CloseIf(capacity.value.aggregate != "available", AggregateCapacityExceeded, capacity.value.aggregate);
        CloseIf(!LegsFit(capacity.value.legs, setup), CurrencyDirectionCapacityExceeded, "");
      }
    }

    method CloseShape(input: Input, attributed: nat, m15: nat, setup: Option<Setup>)
      requires Valid()
      modifies this
      ensures Valid() && closings == old(closings) + ShapeClosings(input, attributed, m15, setup)
    {
      hide Missing, Texts.Join, Texts.SortedSet, Unevaluated, TimingClosings, If, Valid;
      ghost var c0 := closings;
      var unevaluated := Texts.SortedSet(Unevaluated(input.entries, input.evaluations));
      CloseIf(unevaluated != [], TechnicalSetupAbsent, "missing evaluations:" + Texts.Join(unevaluated, ","));
      var missing := Missing(input.snapshot);
      CloseIf(missing != [], RequiredTimeframeUnavailable, Texts.Join(missing, ","));
      CloseIf(m15 != attributed, M15ConfirmationUnavailable, "v2 has no H1-to-M15 entry adapter");
      CloseIf(m15 != attributed, UnsupportedIntentShape, "only exact Phase 5 M15 setup geometry is supported");
      CloseIf(m15 > 1, ConflictingEligibleSetups, "exactly one originatable setup required");
      CloseTiming(setup);
      Seven(c0,
        If(unevaluated != [], TechnicalSetupAbsent, "missing evaluations:" + Texts.Join(unevaluated, ",")),
        If(missing != [], RequiredTimeframeUnavailable, Texts.Join(missing, ",")),
        If(m15 != attributed, M15ConfirmationUnavailable, "v2 has no H1-to-M15 entry adapter"),
        If(m15 != attributed, UnsupportedIntentShape, "only exact Phase 5 M15 setup geometry is supported"),
        If(m15 > 1, ConflictingEligibleSetups, "exactly one originatable setup required"),
        TimingClosings(setup), []);
    }

    method CloseEvidence(input: Input, required: seq<string>)
      requires Valid()
      modifies this
      ensures Valid() && closings == old(closings) + EvidenceClosings(input, required)
    {
      hide EventKnown, EventDetail, Texts.Sort, Texts.Join, TextOf, If, Valid;
      ghost var c0 := closings;
      var event := input.snapshot.event;
      CloseIf(required != [], RequiredEvidenceNotReady, "method v2 defines no Phase 7 requirements");
      CloseIf(required == [] && input.evidence.Some?, InputIntegrityFailure, "unrequired evidence packet");
      CloseIf(!EventKnown(event), EventStateUnknown, TextOf(EventDetail(event)));
      var active := Texts.Sort(event.active);
      CloseIf(active != [], EventWindowBlocked, Texts.Join(active, ","));
      CloseIf(!CompleteCost(input.cost), CostEvidenceMissing, "all exact components required");
      CloseIf(input.cost.None? || input.cost.value.spread.None?, SpreadUnknown, "exact spread required");
      var staleText := if input.cost.Some? then input.cost.value.staleText else "";
      CloseIf(input.cost.Some? && input.cost.value.staleAfter < input.snapshot.cutoff, CostEvidenceStale, staleText);
      Seven(c0,
        If(required != [], RequiredEvidenceNotReady, "method v2 defines no Phase 7 requirements"),
        If(required == [] && input.evidence.Some?, InputIntegrityFailure, "unrequired evidence packet"),
        If(!EventKnown(event), EventStateUnknown, TextOf(EventDetail(event))),
        If(active != [], EventWindowBlocked, Texts.Join(active, ",")),
        If(!CompleteCost(input.cost), CostEvidenceMissing, "all exact components required"),
        If(input.cost.None? || input.cost.value.spread.None?, SpreadUnknown, "exact spread required"),
        If(input.cost.Some? && input.cost.value.staleAfter < input.snapshot.cutoff, CostEvidenceStale, staleText));
    }

    method CloseLater(input: Input, attributed: seq<Evaluation>, format: real -> string)
        returns (reward: Option<(real, real)>)
      requires Valid() && attributed == Attributed(input.entries, input.evaluations)
      modifies this
      ensures Valid() && closings == old(closings) + LaterClosings(input, format)
      ensures var setup := SetupOf(M15Setups(attributed));
              reward ==
                if setup.Some? && CompleteCost(input.cost) && StopDistance(setup.value) > 0.0
                then Some((Gross(setup.value), Net(setup.value, input.cost.value))) else None
    {
      hide M15Setups, RequiredIds, ShapeClosings, EvidenceClosings, RewardClosings, CapacityClosings, CompleteCost,
        If, Attributed, Gross, Net, StopDistance, Valid;
      var m15 := M15Setups(attributed);
      var setup := SetupOf(m15);
      ghost var c0 := closings;
      CloseShape(input, |attributed|, |m15|, setup);
      var required := RequiredIds(input.entries, attributed);
      CloseEvidence(input, required);
      reward := CloseReward(input, setup, |m15|, format);
      CloseCapacity(input.capacity, setup);
      CloseIf(input.duplicate, UnchangedDuplicateIntent, "");
      Seven(c0, ShapeClosings(input, |attributed|, |m15|, setup), EvidenceClosings(input, required),
        RewardClosings(input, setup, |m15|, format), CapacityClosings(input.capacity, setup),
        If(input.duplicate, UnchangedDuplicateIntent, ""), [], []);
    }

    static lemma Seven(
        x: seq<Closing>, a: seq<Closing>, b: seq<Closing>, c: seq<Closing>, d: seq<Closing>, e: seq<Closing>,
        f: seq<Closing>, g: seq<Closing>)
      ensures x + a + b + c + d + e + f + g == x + (a + b + c + d + e + f + g)
      ensures g == [] ==> x + a + b + c + d + e + f == x + (a + b + c + d + e + f)
      ensures f == g == [] ==> x + a + b + c + d + e == x + (a + b + c + d + e)
    {
      assert g == [] ==> x + a + b + c + d + e + f + g == x + a + b + c + d + e + f;
      assert f == g == [] ==> x + a + b + c + d + e + f + g == x + a + b + c + d + e;
    }
  }

  /** `build_assessment`: the record, and whether a research candidate comes with it. */
  method BuildAssessment(input: Input, format: real -> string) returns (a: Assessment, candidate: bool)
    ensures a == Project(input, format)
    ensures candidate <==> Eligible(input)
    ensures candidate <==> a.open
  {
    hide Closings, LaterClosings, EvaluationClosings, Attributed, M15Setups, Missing, ZonesOf, HtfOf, SideOf,
      GateList, REASONS, Gross, Net, StopDistance, CompleteCost, GateAfter;
    var board := new GateBoard();
    board.CloseIf(input.entries == [], NoEconomicallyAdmittedStrategy, "canonical eligibility is empty");
    var attributed := board.AttributeEvaluations(input.entries, input.evaluations);
    var reward := board.CloseLater(input, attributed, format);
    ClosingsAre(input, format);
    assert board.closings == Closings(input, format);
    var primary := board.PrimaryReason();
    var setup := SetupOf(M15Setups(attributed));
    var s := input.snapshot;
    var listed := ListGates(board);
    a := Assessment(
      primary.None?, s.cutoff, Missing(s) == [], [HtfOf(s, "W"), HtfOf(s, "D"), HtfOf(s, "H4")],
      s.monthly, s.macro, s.event.whole,
      ZonesOf(s, "W") + ZonesOf(s, "D") + ZonesOf(s, "H4") + ZonesOf(s, "H1"),
      input.entries, SideOf(input, true), SideOf(input, false), setup,
      if reward.Some? then Some(reward.value.0) else None,
      if reward.Some? then Some(reward.value.1) else None,
      input.cost, input.capacity, primary, listed);
    candidate := primary.None? && setup.Some?;
    CandidateIff(input, format);
  }

  lemma ClosingsAre(input: Input, format: real -> string)
    ensures Closings(input, format) ==
              [] + If(input.entries == [], NoEconomicallyAdmittedStrategy, "canonical eligibility is empty")
              + EvaluationClosings(input.entries, input.evaluations) + LaterClosings(input, format)
  {
    hide LaterClosings, EvaluationClosings;
  }

  method ListGates(board: GateBoard) returns (listed: seq<(Reason, Gate)>)
    requires board.Valid()
    ensures listed == GateList(EngineGate(board.closings), REASONS)
  {
    hide GateAfter;
    listed := [];
    for k := 0 to |REASONS|
      invariant listed == GateList(EngineGate(board.closings), REASONS[..k])
    {
      assert REASONS[..k + 1][..k] == REASONS[..k];
      listed := listed + [(REASONS[k], board.gates[REASONS[k]])];
    }
    assert REASONS[..|REASONS|] == REASONS;
  }
}
