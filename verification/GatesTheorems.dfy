/** When the assessment offers a candidate, and its agreement with the independent empty projection. */
module GatesTheorems {
  import opened Rows
  import opened Gates
  import Texts

  // ---------- exactly when a candidate is offered ----------

  predicate AllAttributable(entries: seq<Entry>, evaluations: seq<Evaluation>) {
    forall k :: 0 <= k < |evaluations| ==> Attributable(entries, evaluations[k])
  }

  predicate AllEvaluated(entries: seq<Entry>, evaluations: seq<Evaluation>) {
    forall k :: 0 <= k < |entries| ==> Evaluated(evaluations, entries[k].strategy)
  }

  lemma LastAttributable(entries: seq<Entry>, evaluations: seq<Evaluation>)
    requires evaluations != []
    ensures var n := |evaluations| - 1;
            AllAttributable(entries, evaluations) <==>
                AllAttributable(entries, evaluations[..n]) && Attributable(entries, evaluations[n])
  {
    hide Attributable;
    var n := |evaluations| - 1;
    assert evaluations == evaluations[..n] + [evaluations[n]];
  }

  lemma LastEvaluated(entries: seq<Entry>, evaluations: seq<Evaluation>)
    requires entries != []
    ensures var n := |entries| - 1;
            AllEvaluated(entries, evaluations) <==>
                AllEvaluated(entries[..n], evaluations) && Evaluated(evaluations, entries[n].strategy)
  {
    hide Evaluated;
    var n := |entries| - 1;
    assert entries == entries[..n] + [entries[n]];
  }

  lemma AttributableHasSetup(entries: seq<Entry>, evaluations: seq<Evaluation>)
    requires AllAttributable(entries, evaluations)
    ensures forall k :: 0 <= k < |evaluations| ==> evaluations[k].output.HasSetup?
  {
    hide Admitted;
  }

  /** Everything a research candidate needs, said without gates. */
  ghost predicate Eligible(input: Input) {
    && input.entries != []
    && AllAttributable(input.entries, input.evaluations)
    && AllEvaluated(input.entries, input.evaluations)
    && Missing(input.snapshot) == []
    && |input.evaluations| == 1
    && RequiredIds(input.entries, input.evaluations) == [] && input.evidence.None?
    && EventKnown(input.snapshot.event) && input.snapshot.event.active == []
    && CompleteCost(input.cost) && input.snapshot.cutoff <= input.cost.value.staleAfter
    && input.capacity.Some? && input.capacity.value.aggregate == "available"
    && !input.duplicate
    && var s := input.evaluations[0].output.setup;
       && s.m15 && s.timing.Successor?
       && StopDistance(s) > 0.0
       && input.cost.value.spread.value / StopDistance(s) <= 0.1
       && Net(s, input.cost.value) > 0.0
       && LegsFit(input.capacity.value.legs, Some(s))
  }

  lemma NoPrimaryIff(closings: seq<Closing>)
    ensures Primary(closings).None? <==> closings == []
  {
    hide REASONS;
    PrimaryIs(closings, 0);
    if closings != [] {
      var r := closings[0].reason;
      EveryReasonListed(r);
      assert Closes(closings, r);
      var j :| 0 <= j < |REASONS| && REASONS[j] == r;
    }
  }

  lemma {:induction false} EvaluationsQuietIff(entries: seq<Entry>, evaluations: seq<Evaluation>)
    ensures EvaluationClosings(entries, evaluations) == [] <==> AllAttributable(entries, evaluations)
  {
    hide Admitted, AllAttributable;
    if evaluations == [] {
      assert AllAttributable(entries, evaluations) by { NoEvaluations(entries, evaluations); }
    } else {
      LastAttributable(entries, evaluations);
      EvaluationsQuietIff(entries, evaluations[..|evaluations| - 1]);
    }
  }

  lemma {:induction false} AllAttributed(entries: seq<Entry>, evaluations: seq<Evaluation>)
    requires AllAttributable(entries, evaluations)
    ensures Attributed(entries, evaluations) == evaluations
  {
    hide Attributable, AllAttributable;
    if evaluations != [] {
      LastAttributable(entries, evaluations);
      AllAttributed(entries, evaluations[..|evaluations| - 1]);
      assert evaluations == evaluations[..|evaluations| - 1] + [evaluations[|evaluations| - 1]];
    }
  }

  lemma {:induction false} AllEvaluatedIff(entries: seq<Entry>, evaluations: seq<Evaluation>)
    ensures Unevaluated(entries, evaluations) == [] <==> AllEvaluated(entries, evaluations)
  {
    hide Evaluated, AllEvaluated;
    if entries == [] {
      assert AllEvaluated(entries, evaluations) by { NoEntries(entries, evaluations); }
    } else {
      LastEvaluated(entries, evaluations);
      AllEvaluatedIff(entries[..|entries| - 1], evaluations);
    }
  }

  lemma NoEvaluations(entries: seq<Entry>, evaluations: seq<Evaluation>)
    requires evaluations == []
    ensures AllAttributable(entries, evaluations)
  {
  }

  lemma NoEntries(entries: seq<Entry>, evaluations: seq<Evaluation>)
    requires entries == []
    ensures AllEvaluated(entries, evaluations)
  {
  }

  lemma SortedSetEmptyIff(parts: seq<string>)
    ensures Texts.SortedSet(parts) == [] <==> parts == []
    ensures Texts.Sort(parts) == [] <==> parts == []
  {
  }

  /** With every evaluation attributable, silence behind the loop is the rest of eligibility. */
  lemma LaterQuietIff(input: Input, format: real -> string)
    requires input.entries != [] && AllAttributable(input.entries, input.evaluations)
    ensures LaterClosings(input, format) == [] <==> Eligible(input)
  {
    hide Attributable, AllAttributable, AllEvaluated, Missing, EventKnown, RequiredIds, Texts.SortedSet, Texts.Sort,
      StopDistance, Net, LegsFit, Evaluated, Unevaluated;
    AllAttributed(input.entries, input.evaluations);
    AllEvaluatedIff(input.entries, input.evaluations);
    SortedSetEmptyIff(Unevaluated(input.entries, input.evaluations));
    SortedSetEmptyIff(input.snapshot.event.active);
    EvaluatedIsNonempty(input.entries, input.evaluations);
    AttributableHasSetup(input.entries, input.evaluations);
    SingleM15(input.evaluations);
  }

  lemma EvaluatedIsNonempty(entries: seq<Entry>, evaluations: seq<Evaluation>)
    requires entries != []
    ensures AllEvaluated(entries, evaluations) ==> evaluations != []
  {
    assert AllEvaluated(entries, evaluations) ==> Evaluated(evaluations, entries[0].strategy);
  }

  lemma SingleM15(evaluations: seq<Evaluation>)
    requires forall k :: 0 <= k < |evaluations| ==> evaluations[k].output.HasSetup?
    ensures |M15Setups(evaluations)| <= |evaluations|
    ensures |evaluations| == 1 ==> M15Setups(evaluations) == if evaluations[0].output.setup.m15 then evaluations else []
  {
  }

  /** No gate closes exactly for an eligible input: in particular a silent board always has its one M15 setup, at a
      cost that leaves a positive net reward and a spread of at most a tenth of the stop. */
  lemma CandidateIff(input: Input, format: real -> string)
    ensures Primary(Closings(input, format)).None? <==> Eligible(input)
    ensures OffersCandidate(input, format) <==> Eligible(input)
  {
    hide LaterClosings, EvaluationClosings, Primary, AllAttributable, AllEvaluated;
    NoPrimaryIff(Closings(input, format));
    EvaluationsQuietIff(input.entries, input.evaluations);
    if input.entries != [] && AllAttributable(input.entries, input.evaluations) {
      LaterQuietIff(input, format);
      if Eligible(input) {
        AllAttributed(input.entries, input.evaluations);
        AttributableHasSetup(input.entries, input.evaluations);
        SingleM15(input.evaluations);
      }
    }
  }
}
