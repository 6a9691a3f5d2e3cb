/** The status an assessment ends with, from its samples to the decision. */
module PopulationStatus {
  import opened Rows
  import opened Grouping
  import opened Scoring
  import opened Populations
  import Calibration

  datatype Kind = Champion | Challenger
  datatype Status = Collecting | CoverageLimited | GuardrailFailed | DescriptiveReady | PromotionEligible

  /** The figures the decision reads. */
  datatype Figures = Figures(
    samples: nat, scored: nat, days: int, clusters: nat, mature: nat, missingControls: nat, incompatibleControls: nat,
    pairedTargets: nat, high: Option<int>, model: Option<int>, control: int, calibration: Option<int>,
    pairs: nat, pairClusters: nat, pairHigh: Option<int>)

  datatype Policy = Policy(samples: nat, days: int, clusters: nat, coverage: nat, calibration: int)

  const UNIFORM_BRIER: int := 222222

  predicate Ready(f: Figures, p: Policy) {
    f.samples >= p.samples && f.scored >= p.samples && f.days >= p.days && f.clusters >= p.clusters
  }

  /** Coverage below the policy's minimum, in ten-thousandths; no mature target is no coverage. */
  predicate CoverageShort(f: Figures, p: Policy) {
    if f.mature == 0 then 0 < p.coverage else f.scored * 10000 < p.coverage * f.mature
  }

  predicate GuardrailBroken(f: Figures, p: Policy) {
    || f.missingControls != 0 || f.incompatibleControls != 0 || f.pairedTargets != f.scored
    || f.high.None? || f.high.value >= UNIFORM_BRIER
    || f.model.None? || f.model.value >= f.control
    || f.calibration.None? || f.calibration.value > p.calibration
  }

  predicate ChallengerPasses(f: Figures, p: Policy) {
    && Ready(f, p) && !CoverageShort(f, p)
    && f.missingControls == 0 && f.incompatibleControls == 0 && f.pairedTargets == f.scored
    && f.model.Some? && f.model.value < f.control
    && f.high.Some? && f.high.value < UNIFORM_BRIER
    && f.calibration.Some? && f.calibration.value <= p.calibration
    && f.pairClusters >= p.clusters && f.pairs >= p.samples
    && f.pairHigh.Some? && f.pairHigh.value < 0
  }

  /** The status the assessment ends with. */
  method DecideStatus(kind: Kind, f: Figures, p: Policy) returns (status: Status)
    ensures status == StatusOf(kind, f, p)
  {
    status := Collecting;
    if Ready(f, p) {
      if CoverageShort(f, p) {
        status := CoverageLimited;
      } else if GuardrailBroken(f, p) {
        status := GuardrailFailed;
      } else if kind.Champion? {
        status := DescriptiveReady;
      } else {
        status := GuardrailFailed;
      }
    }
    if kind.Challenger? && ChallengerPasses(f, p) {
      status := PromotionEligible;
    }
  }

  /** The same decision by what it means rather than how it is reached: promotion needs everything descriptive
      readiness needs, and a paired interval below zero over enough targets and weeks. */
  function StatusOf(kind: Kind, f: Figures, p: Policy): Status {
    if !Ready(f, p) then Collecting
    else if CoverageShort(f, p) then CoverageLimited
    else if GuardrailBroken(f, p) then GuardrailFailed
    else if kind.Champion? then DescriptiveReady
    else if f.pairClusters >= p.clusters && f.pairs >= p.samples && f.pairHigh.Some? && f.pairHigh.value < 0
    then PromotionEligible
    else GuardrailFailed
  }

  // ---------- the figures ----------

  /** Half widths by the number of clusters, for scores and for differences. */
  type Widths = (nat, bool) -> Half

  /** The high end of `_cluster_interval`. */
  function High(scores: seq<Score>, value: Score -> int, widths: Widths, differences: bool): Option<int> {
    var mean := EraMean(scores, value);
    if mean.None? then None
    else
      var half := widths(|Keys(scores, ClusterKey())|, differences);
      Some(ClusterInterval(mean.value, half.width, half.parts, differences).high)
  }

  /** The champion's scores of a target, when there are any. */
  function InChampion(champion: map<nat, seq<int>>): Score -> bool {
    (s: Score) => s.target in champion && champion[s.target] != []
  }

  function Against(champion: map<nat, seq<int>>): Score -> int {
    (s: Score) => if s.target in champion && champion[s.target] != [] then s.mean - Mean(champion[s.target]) else 0
  }

  lemma {:induction false} ResolvedValid(samples: seq<Sample>, targets: map<nat, Target>, keys: seq<nat>)
    requires AllValid(samples)
    ensures Calibration.AllValid(Resolved(samples, targets, keys))
  {
    hide Members, Only, Valid, AllValid;
    if keys != [] {
      var key := keys[|keys| - 1];
      ResolvedValid(samples, targets, keys[..|keys| - 1]);
      MembersValid(samples, key);
      ResolvedToValid(Lookup(targets, key), Members(samples, TargetKey(), key));
    }
  }

  lemma ResolvedToValid(t: Target, members: seq<Sample>)
    requires AllValid(members)
    ensures Calibration.AllValid(ResolvedTo(t, members))
  {
    hide Only, Valid;
    OnlyValid(members, IsResolved());
  }

  function FiguresOf(
    samples: seq<Sample>, targets: map<nat, Target>, champion: map<nat, seq<int>>, days: nat, widths: Widths): Figures
    requires AllValid(samples)
  {
    var t := TallyOf(samples, targets);
    var paired := Only(t.scores, HasPair());
    var challenged := Only(t.scores, InChampion(champion));
    var control := EraMean(paired, ControlOf());
    ResolvedValid(samples, targets, Keys(samples, TargetKey()));
    Figures(
      |samples|, |t.scores|, days, |Keys(t.scores, ClusterKey())|, t.mature, t.missingControls, t.incompatibleControls,
      t.pairedTargets, High(t.scores, MeanOf(), widths, false), EraMean(paired, ModelOf()),
      if control.Some? then control.value else 0, Calibration.CalibrationMicros(t.resolved, true),
      |challenged|, |Keys(challenged, ClusterKey())|, High(challenged, Against(champion), widths, true))
  }

  // ---------- as it runs ----------

  method IntervalHigh(g: Groups, ghost scores: seq<Score>, ghost value: Score -> int, widths: Widths, differences: bool)
    returns (high: Option<int>)
    requires g == Collected(scores, value)
    ensures high == High(scores, value, widths, differences)
  {
    hide EraMean, Collected, Keys, Members, ClusterInterval;
    CollectedIs(scores, value);
    var mean := MeanOfMeans(g, scores, value);
    if mean.None? {
      return None;
    }
    var half := widths(|g.order|, differences);
    high := Some(ClusterInterval(mean.value, half.width, half.parts, differences).high);
  }

  /** The pairing of a challenger's scores with its champion's. */
  method PairWithChampion(scores: seq<Score>, champion: map<nat, seq<int>>) returns (pairs: Groups)
    ensures pairs == Collected(Only(scores, InChampion(champion)), Against(champion))
  {
    hide Mean, Only, Collected, Append;
    pairs := Groups([], map[]);
    NothingPaired(champion);
    assert scores[..0] == [];
    for k := 0 to |scores|
      invariant pairs == Collected(Only(scores[..k], InChampion(champion)), Against(champion))
    {
      var s := scores[k];
      assert scores[..k + 1] == scores[..k] + [s];
      PairStep(champion, scores[..k], s);
      if s.target in champion && champion[s.target] != [] {
        pairs := Append(pairs, s.cluster, s.mean - Mean(champion[s.target]));
      }
    }
    assert scores[..|scores|] == scores;
  }

  lemma PairStep(champion: map<nat, seq<int>>, front: seq<Score>, s: Score)
    ensures var before := Collected(Only(front, InChampion(champion)), Against(champion));
            Collected(Only(front + [s], InChampion(champion)), Against(champion)) ==
              if s.target in champion && champion[s.target] != []
              then Append(before, s.cluster, s.mean - Mean(champion[s.target])) else before
  {
    hide Mean, Only, Collected, Append;
    var p, paired := InChampion(champion), Only(front, InChampion(champion));
    OnlyLast(front, s, p);
    CollectedLast(paired, s, Against(champion));
    if p(s) {
      assert Only(front + [s], p) == paired + [s];
    } else {
      assert Only(front + [s], p) == paired;
    }
  }

  lemma NothingPaired(champion: map<nat, seq<int>>)
    ensures Collected(Only([], InChampion(champion)), Against(champion)) == Groups([], map[])
  {
  }

  function One(): Score -> real { (s: Score) => 1.0 }

  /** `sum(map(len, pairs.values()))` */
  method SumLengths(g: Groups, ghost scores: seq<Score>, ghost value: Score -> int) returns (n: nat)
    requires g == Collected(scores, value)
    ensures n == |scores|
  {
    hide Collected, Keys, Members, Total, GroupTotal;
    CollectedIs(scores, value);
    n := 0;
    NoTotal(GroupTotal(scores, ClusterKey(), One()));
    assert g.order[..0] == [];
    for k := 0 to |g.order|
      invariant n as real == Total(g.order[..k], GroupTotal(scores, ClusterKey(), One()))
    {
      assert g.order[k] in g.order;
      var list := g.lists[g.order[k]];
      assert list == Bucket(g.lists, g.order[k]);
      NextLength(scores, g.order, k);
      n := n + |list|;
    }
    assert g.order[..|g.order|] == g.order;
    GroupsSum(scores, ClusterKey(), One());
    TotalConstant(scores, One(), 1.0);
  }

  lemma NoTotal(f: nat -> real)
    ensures Total<nat>([], f) == 0.0
  {
  }

  lemma NextLength(scores: seq<Score>, order: seq<nat>, k: nat)
    requires k < |order|
    ensures var f := GroupTotal(scores, ClusterKey(), One());
            Total(order[..k + 1], f) == Total(order[..k], f) + |Members(scores, ClusterKey(), order[k])| as real
  {
    assert order[..k + 1][..k] == order[..k];
    TotalConstant(Members(scores, ClusterKey(), order[k]), One(), 1.0);
  }

  /** The path of `assessment_values` from its samples to its status. */
  method AssessStatus(
    kind: Kind, samples: seq<Sample>, targets: map<nat, Target>, champion: map<nat, seq<int>>, days: nat,
    widths: Widths, policy: Policy)
    returns (status: Status)
    requires AllValid(samples)
    ensures status == StatusOf(kind, FiguresOf(samples, targets, champion, days, widths), policy)
  {
    hide TallyOf, EraMean, High, Collected, Only, Keys, Members, AllValid, Calibration.CalibrationMicros, Resolved;
    var t := TallyTargets(samples, targets);
    TallyParts(samples, targets);
    ghost var paired := Only(t.scores, HasPair());
    ghost var challenged := Only(t.scores, InChampion(champion));
    var high := IntervalHigh(t.clusters, t.scores, MeanOf(), widths, false);
    var model := MeanOfMeans(t.pairedClusters, paired, ModelOf());
    var control := MeanOfMeans(t.controlClusters, paired, ControlOf());
    ResolvedValid(samples, targets, Keys(samples, TargetKey()));
    var calibration := Calibration.CalibrationError(t.resolved, true);
    var pairs := PairWithChampion(t.scores, champion);
    var pairHigh := IntervalHigh(pairs, challenged, Against(champion), widths, true);
    var pairCount := SumLengths(pairs, challenged, Against(champion));
    CollectedIs(t.scores, MeanOf());
    CollectedIs(challenged, Against(champion));
    var f := Figures(
      |samples|, |t.scores|, days, |t.clusters.order|, t.mature, t.missingControls, t.incompatibleControls,
      t.pairedTargets, high, model, if control.Some? then control.value else 0, calibration, pairCount,
      |pairs.order|, pairHigh);
    status := DecideStatus(kind, f, policy);
  }

  lemma TallyParts(samples: seq<Sample>, targets: map<nat, Target>)
    ensures var t := TallyOf(samples, targets);
            var paired := Only(t.scores, HasPair());
            && t.resolved == Resolved(samples, targets, Keys(samples, TargetKey()))
            && t.clusters == Collected(t.scores, MeanOf())
            && t.pairedClusters == Collected(paired, ModelOf()) && t.controlClusters == Collected(paired, ControlOf())
  {
    hide Scores, Resolved, Collected, Only, Keys;
  }
}
