/** Assessment populations: samples are scored target by target, targets week by week, and beside their controls. */
module Populations {
  import opened Rows
  import opened Grouping
  import opened Scoring
  import Calibration

  /** The mechanical control forecast of a recommendation; `resolved` says its own resolution is visible and matches
      its target's. */
  datatype Control = NoControl | Incompatible | Comparable(p: Probabilities, resolved: bool)

  /** A sample of the era; `resolved` as for the control. */
  datatype Sample = Sample(target: nat, cluster: nat, p: Probabilities, resolved: bool, control: Control)

  /** What the shared resolution of a target says at the cutoff. */
  datatype Resolution = Pending | Missing | Cancelled | Scored(outcome: Outcome)
  datatype Target = Target(mature: bool, resolution: Resolution)

  /** The means of a target's samples, and of those with a resolved control beside their controls. */
  datatype Pair = Pair(model: int, control: int)
  datatype Score = Score(target: nat, cluster: nat, mean: int, pair: Option<Pair>)

  function TargetKey(): Sample -> nat { (s: Sample) => s.target }
  function ClusterKey(): Score -> nat { (s: Score) => s.cluster }
  function IsResolved(): Sample -> bool { (s: Sample) => s.resolved }
  function HasControl(): Sample -> bool { (s: Sample) => s.control.Comparable? && s.control.resolved }
  function LacksControl(): Sample -> bool { (s: Sample) => s.control.NoControl? }
  function HasIncompatible(): Sample -> bool { (s: Sample) => s.control.Incompatible? }
  function HasComparable(): Sample -> bool { (s: Sample) => s.control.Comparable? }

  function BrierFor(o: Outcome): Sample -> int { (s: Sample) => Brier(s.p, o) }
  function ControlBrier(o: Outcome): Sample -> int {
    (s: Sample) => if s.control.Comparable? then Brier(s.control.p, o) else 0
  }
  function AsResolved(o: Outcome): Sample -> Calibration.Sample {
    (s: Sample) => Calibration.Sample(s.cluster, s.target, s.p, o)
  }

  function HasPair(): Score -> bool { (s: Score) => s.pair.Some? }
  function MeanOf(): Score -> int { (s: Score) => s.mean }
  function ModelOf(): Score -> int { (s: Score) => if s.pair.Some? then s.pair.value.model else 0 }
  function ControlOf(): Score -> int { (s: Score) => if s.pair.Some? then s.pair.value.control else 0 }
  function DeltaOf(): Score -> int { (s: Score) => ModelOf()(s) - ControlOf()(s) }

  type Positive = x: nat | x > 0 witness 1

  /** The half width of an interval, `width / (3 * parts)` millionths. */
  datatype Half = Half(width: nat, parts: Positive)

  function Lookup(targets: map<nat, Target>, key: nat): Target {
    if key in targets then targets[key] else Target(false, Pending)
  }

  /** The values of a list as a set, in order of first appearance. */
  function Once(values: seq<int>): (r: seq<int>)
    ensures forall v :: v in r <==> v in values
    ensures values != [] ==> r != []
  {
    if values == [] then []
    else
      LastOf(values, values[|values| - 1]);
      var rest := Once(values[..|values| - 1]);
      if values[|values| - 1] in rest then rest else rest + [values[|values| - 1]]
  }

  function PairOf(paired: seq<Sample>, o: Outcome): Option<Pair> {
    if paired == [] then None
    else Some(Pair(Mean(Mapped(paired, BrierFor(o))), Mean(Once(Mapped(paired, ControlBrier(o))))))
  }

  /** The samples of a target that count: none unless it is mature and has an outcome. */
  function Counting(t: Target, members: seq<Sample>): seq<Sample> {
    if t.mature && t.resolution.Scored? then Only(members, IsResolved()) else []
  }

  /** A target is scored when some of its samples count. */
  function ScoreOf(t: Target, members: seq<Sample>): Option<Score> {
    var valid := Counting(t, members);
    if valid == [] then None else Some(ScoreFor(valid, t.resolution.outcome))
  }

  function ScoreFor(valid: seq<Sample>, o: Outcome): Score
    requires valid != []
  {
    Score(valid[0].target, valid[0].cluster, Mean(Mapped(valid, BrierFor(o))), PairOf(Only(valid, HasControl()), o))
  }

  /** The scores of the targets `keys`, in order. */
  function Scores(samples: seq<Sample>, targets: map<nat, Target>, keys: seq<nat>): seq<Score> {
    if keys == [] then []
    else
      var rest := Scores(samples, targets, keys[..|keys| - 1]);
      var key := keys[|keys| - 1];
      var score := ScoreOf(Lookup(targets, key), Members(samples, TargetKey(), key));
      if score.Some? then rest + [score.value] else rest
  }

  /** What the calibration error is computed from. */
  function Resolved(samples: seq<Sample>, targets: map<nat, Target>, keys: seq<nat>): seq<Calibration.Sample> {
    if keys == [] then []
    else
      var key := keys[|keys| - 1];
      Resolved(samples, targets, keys[..|keys| - 1])
      + ResolvedTo(Lookup(targets, key), Members(samples, TargetKey(), key))
  }

  function ResolvedTo(t: Target, members: seq<Sample>): seq<Calibration.Sample> {
    if t.resolution.Scored? then Mapped(Counting(t, members), AsResolved(t.resolution.outcome)) else []
  }

  function PairedSamples(samples: seq<Sample>, targets: map<nat, Target>, keys: seq<nat>): nat {
    if keys == [] then 0
    else
      var key := keys[|keys| - 1];
      PairedSamples(samples, targets, keys[..|keys| - 1])
      + |Only(Counting(Lookup(targets, key), Members(samples, TargetKey(), key)), HasControl())|
  }

  function Count(targets: map<nat, Target>, keys: seq<nat>, p: Target -> bool): nat {
    if keys == [] then 0
    else Count(targets, keys[..|keys| - 1], p) + if p(Lookup(targets, keys[|keys| - 1])) then 1 else 0
  }

  function IsMature(): Target -> bool { (t: Target) => t.mature }
  function IsMissing(): Target -> bool { (t: Target) => t.mature && t.resolution.Missing? }
  function IsCancelled(): Target -> bool { (t: Target) => t.mature && t.resolution.Cancelled? }

  // ---------- dictionaries of lists ----------

  datatype Groups = Groups(order: seq<nat>, lists: map<nat, seq<int>>)

  /** `groups[key].append(value)` */
  function Append(g: Groups, key: nat, value: int): Groups {
    Groups(if key in g.lists then g.order else g.order + [key], g.lists[key := Bucket(g.lists, key) + [value]])
  }

  /** A dictionary that was given one value for each score. */
  function Collected(scores: seq<Score>, value: Score -> int): Groups {
    if scores == [] then Groups([], map[])
    else
      var last := scores[|scores| - 1];
      Append(Collected(scores[..|scores| - 1], value), last.cluster, value(last))
  }

  lemma {:induction false} CollectedIs(scores: seq<Score>, value: Score -> int)
    ensures var g := Collected(scores, value);
            && g.order == Keys(scores, ClusterKey())
            && (forall c :: Bucket(g.lists, c) == Mapped(Members(scores, ClusterKey(), c), value))
            && (forall c :: c in g.lists <==> c in g.order)
  {
    if scores != [] {
      var front, last := scores[..|scores| - 1], scores[|scores| - 1];
      CollectedIs(front, value);
      forall c
        ensures Bucket(Collected(scores, value).lists, c) == Mapped(Members(scores, ClusterKey(), c), value)
      {
        assert Mapped([last], value) == [value(last)];
        MappedConcat(Members(front, ClusterKey(), c), [last], value);
      }
    }
  }

  /** The values of each weekly cluster. */
  function Clusters(scores: seq<Score>, keys: seq<nat>, value: Score -> int): (c: seq<seq<int>>)
    ensures |c| == |keys|
  {
    if keys == [] then []
    else Clusters(scores, keys[..|keys| - 1], value) + [Mapped(Members(scores, ClusterKey(), keys[|keys| - 1]), value)]
  }

  lemma {:induction false} ClustersFilled(scores: seq<Score>, keys: seq<nat>, value: Score -> int)
    requires forall k :: 0 <= k < |keys| ==> Members(scores, ClusterKey(), keys[k]) != []
    ensures forall k :: 0 <= k < |keys| ==>
              Clusters(scores, keys, value)[k] == Mapped(Members(scores, ClusterKey(), keys[k]), value) != []
  {
    hide Members;
    if keys != [] {
      ClustersFilled(scores, keys[..|keys| - 1], value);
    }
  }

  lemma WeeksFilled(scores: seq<Score>, value: Score -> int)
    ensures var clusters := Clusters(scores, Keys(scores, ClusterKey()), value);
            && (forall k :: 0 <= k < |clusters| ==> clusters[k] != [])
            && (scores != [] ==> clusters != [])
  {
    hide Members, Keys;
    var keys := Keys(scores, ClusterKey());
    KeysAre(scores, ClusterKey());
    assert forall k :: 0 <= k < |keys| ==> keys[k] in keys;
    ClustersFilled(scores, keys, value);
    assert scores != [] ==> ClusterKey()(scores[0]) in keys;
  }

  /** The mean of the cluster means. */
  function EraMean(scores: seq<Score>, value: Score -> int): Option<int> {
    WeeksFilled(scores, value);
    if scores == [] then None else Some(Mean(ClusterMeans(Clusters(scores, Keys(scores, ClusterKey()), value))))
  }

  /** `_mean([_mean(v) for v in groups.values()])` */
  method MeanOfMeans(g: Groups, ghost scores: seq<Score>, ghost value: Score -> int) returns (mean: Option<int>)
    requires g == Collected(scores, value)
    ensures mean == EraMean(scores, value)
  {
    hide Mean, Members, Keys, Collected, Clusters, ClusterMeans;
    ghost var clusters := Clusters(scores, Keys(scores, ClusterKey()), value);
    ListsAre(scores, value);
    WeeksFilled(scores, value);
    var means := [];
    NoMeans();
    for k := 0 to |g.order|
      invariant means == ClusterMeans(clusters[..k])
    {
      var list := g.lists[g.order[k]];
      assert clusters[..k + 1][..k] == clusters[..k];
      NextMean(clusters, k);
      means := means + [Mean(list)];
    }
    assert clusters[..|g.order|] == clusters;
    mean := if means == [] then None else Some(Mean(means));
  }

  lemma NoMeans()
    ensures ClusterMeans([]) == []
  {
  }

  lemma NextMean(clusters: seq<seq<int>>, k: nat)
    requires k < |clusters| && forall j :: 0 <= j < |clusters| ==> clusters[j] != []
    ensures ClusterMeans(clusters[..k + 1]) == ClusterMeans(clusters[..k]) + [Mean(clusters[k])]
  {
    assert clusters[..k + 1][..k] == clusters[..k];
  }

  /** The dictionary's lists are the clusters' values. */
  lemma ListsAre(scores: seq<Score>, value: Score -> int)
    ensures var g, clusters := Collected(scores, value), Clusters(scores, Keys(scores, ClusterKey()), value);
            && |g.order| == |clusters| && (g.order == [] <==> scores == [])
            && forall k :: 0 <= k < |g.order| ==> g.order[k] in g.lists && g.lists[g.order[k]] == clusters[k]
  {
    hide Members, Keys, Collected, Clusters;
    var g, keys := Collected(scores, value), Keys(scores, ClusterKey());
    CollectedIs(scores, value);
    KeysAre(scores, ClusterKey());
    NoKeys(scores, ClusterKey());
    assert forall k :: 0 <= k < |keys| ==> keys[k] in keys;
    ClustersFilled(scores, keys, value);
    forall k | 0 <= k < |g.order|
      ensures g.order[k] in g.lists && g.lists[g.order[k]] == Clusters(scores, keys, value)[k]
    {
      assert g.order[k] in g.order;
      assert Bucket(g.lists, g.order[k]) == Mapped(Members(scores, ClusterKey(), g.order[k]), value);
    }
  }

  // ---------- the loops ----------

  datatype Tally = Tally(
    targets: nat, mature: nat, missing: nat, cancelled: nat, scores: seq<Score>, resolved: seq<Calibration.Sample>,
    clusters: Groups, pairedClusters: Groups, controlClusters: Groups, pairedSamples: nat, pairedTargets: nat,
    missingControls: nat, incompatibleControls: nat)

  /** What the loops of `assessment_values` count and collect. */
  function TallyOf(samples: seq<Sample>, targets: map<nat, Target>): Tally {
    var keys := Keys(samples, TargetKey());
    var scores := Scores(samples, targets, keys);
    var paired := Only(scores, HasPair());
    Tally(
      |keys|, Count(targets, keys, IsMature()), Count(targets, keys, IsMissing()), Count(targets, keys, IsCancelled()),
      scores, Resolved(samples, targets, keys),
      Collected(scores, MeanOf()), Collected(paired, ModelOf()), Collected(paired, ControlOf()),
      PairedSamples(samples, targets, keys), |paired|,
      |Only(samples, LacksControl())|, |Only(samples, HasIncompatible())|)
  }

  method CountControls(samples: seq<Sample>) returns (missing: nat, incompatible: nat)
    ensures missing == |Only(samples, LacksControl())| && incompatible == |Only(samples, HasIncompatible())|
  {
    hide Only, LacksControl, HasIncompatible;
    missing, incompatible := 0, 0;
    NoControls();
    for k := 0 to |samples|
      invariant missing == |Only(samples[..k], LacksControl())|
      invariant incompatible == |Only(samples[..k], HasIncompatible())|
    {
      assert samples[..k + 1] == samples[..k] + [samples[k]];
      ControlsLast(samples[..k], samples[k]);
      if samples[k].control.NoControl? {
        missing := missing + 1;
      } else if samples[k].control.Incompatible? {
        incompatible := incompatible + 1;
      }
    }
    assert samples[..|samples|] == samples;
  }

  lemma NoControls()
    ensures Only([], LacksControl()) == [] && Only([], HasIncompatible()) == []
  {
  }

  lemma ControlsLast(front: seq<Sample>, s: Sample)
    ensures |Only(front + [s], LacksControl())| ==
              |Only(front, LacksControl())| + if s.control.NoControl? then 1 else 0
    ensures |Only(front + [s], HasIncompatible())| ==
              |Only(front, HasIncompatible())| + if s.control.Incompatible? then 1 else 0
    ensures |Only(front + [s], HasComparable())| ==
              |Only(front, HasComparable())| + if s.control.Comparable? then 1 else 0
  {
    hide Only;
    OnlyLast(front, s, LacksControl());
    OnlyLast(front, s, HasIncompatible());
    OnlyLast(front, s, HasComparable());
  }

  /** The part of a tally one target adds to. */
  datatype Partial = Partial(
    mature: nat, missing: nat, cancelled: nat, scores: seq<Score>, resolved: seq<Calibration.Sample>,
    clusters: Groups, pairedClusters: Groups, controlClusters: Groups, pairedSamples: nat, pairedTargets: nat)

  function PartialOf(samples: seq<Sample>, targets: map<nat, Target>, keys: seq<nat>): Partial {
    var scores := Scores(samples, targets, keys);
    var paired := Only(scores, HasPair());
    Partial(
      Count(targets, keys, IsMature()), Count(targets, keys, IsMissing()), Count(targets, keys, IsCancelled()),
      scores, Resolved(samples, targets, keys),
      Collected(scores, MeanOf()), Collected(paired, ModelOf()), Collected(paired, ControlOf()),
      PairedSamples(samples, targets, keys), |paired|)
  }

  function AddScore(b: Partial, s: Score): Partial {
    var scored := b.(scores := b.scores + [s], clusters := Append(b.clusters, s.cluster, s.mean));
    if s.pair.None? then scored
    else scored.(
      pairedClusters := Append(b.pairedClusters, s.cluster, s.pair.value.model),
      controlClusters := Append(b.controlClusters, s.cluster, s.pair.value.control),
      pairedTargets := b.pairedTargets + 1)
  }

  /** What a target adds to a tally some of whose samples count. */
  function AddValid(valid: seq<Sample>, o: Outcome, b: Partial): Partial
    requires valid != []
  {
    AddScore(
      b.(resolved := b.resolved + Mapped(valid, AsResolved(o)),
         pairedSamples := b.pairedSamples + |Only(valid, HasControl())|),
      ScoreFor(valid, o))
  }

  /** What any target adds. */
  function AddTarget(t: Target, members: seq<Sample>, b: Partial): Partial {
    var counted := b.(
      mature := b.mature + (if IsMature()(t) then 1 else 0),
      missing := b.missing + (if IsMissing()(t) then 1 else 0),
      cancelled := b.cancelled + (if IsCancelled()(t) then 1 else 0));
    var valid := Counting(t, members);
    if valid == [] then counted else AddValid(valid, t.resolution.outcome, counted)
  }

  /** The end of a round, for a target some of whose samples count. */
  method ScoreTarget(o: Outcome, valid: seq<Sample>, before: Partial) returns (after: Partial)
    requires valid != []
    ensures after == AddValid(valid, o, before)
  {
    hide Mean, Brier, Once, Append, Only, Mapped, AsResolved, BrierFor, ControlBrier, HasControl;
    var mean := Mean(Mapped(valid, BrierFor(o)));
    var target, cluster := valid[0].target, valid[0].cluster;
    var resolved := before.resolved + Mapped(valid, AsResolved(o));
    var clusters := Append(before.clusters, cluster, mean);
    var paired := Only(valid, HasControl());
    if paired == [] {
      return before.(
        resolved := resolved, clusters := clusters, scores := before.scores + [Score(target, cluster, mean, None)]);
    }
    var controls := Once(Mapped(paired, ControlBrier(o)));
    var model := Mean(Mapped(paired, BrierFor(o)));
    after := before.(
      resolved := resolved, clusters := clusters,
      scores := before.scores + [Score(target, cluster, mean, Some(Pair(model, Mean(controls))))],
      pairedClusters := Append(before.pairedClusters, cluster, model),
      controlClusters := Append(before.controlClusters, cluster, Mean(controls)),
      pairedSamples := before.pairedSamples + |paired|,
      pairedTargets := before.pairedTargets + 1);
  }

  /** One round of the loop over the targets. */
  method TallyTarget(t: Target, members: seq<Sample>, before: Partial) returns (after: Partial)
    ensures after == AddTarget(t, members, before)
  {
    hide AddValid, Only, IsResolved;
    if !t.mature {
      return before;
    }
    after := before.(mature := before.mature + 1);
    if t.resolution.Pending? {
      return;
    }
    if t.resolution.Missing? {
      after := after.(missing := after.missing + 1);
      return;
    }
    if t.resolution.Cancelled? {
      after := after.(cancelled := after.cancelled + 1);
      return;
    }
    var valid := Only(members, IsResolved());
    if valid == [] {
      return;
    }
    after := ScoreTarget(t.resolution.outcome, valid, after);
  }

  lemma CollectedLast(front: seq<Score>, s: Score, value: Score -> int)
    ensures Collected(front + [s], value) == Append(Collected(front, value), s.cluster, value(s))
  {
    assert (front + [s])[..|front|] == front;
  }

  lemma AddsScore(samples: seq<Sample>, targets: map<nat, Target>, keys: seq<nat>)
    requires keys != []
    ensures var key := keys[|keys| - 1];
            var front := Scores(samples, targets, keys[..|keys| - 1]);
            var score := ScoreOf(Lookup(targets, key), Members(samples, TargetKey(), key));
            var scores := Scores(samples, targets, keys);
            && (score.None? ==> scores == front)
            && (score.Some? ==>
                  var s := score.value;
                  && scores == front + [s]
                  && Collected(scores, MeanOf()) == Append(Collected(front, MeanOf()), s.cluster, s.mean)
                  && (s.pair.None? ==> Only(scores, HasPair()) == Only(front, HasPair()))
                  && (s.pair.Some? ==>
                        && Only(scores, HasPair()) == Only(front, HasPair()) + [s]
                        && forall value :: Collected(Only(scores, HasPair()), value)
                             == Append(Collected(Only(front, HasPair()), value), s.cluster, value(s))))
  {
    hide Members, ScoreOf, Collected, Only, Append;
    var key := keys[|keys| - 1];
    var front := Scores(samples, targets, keys[..|keys| - 1]);
    var score := ScoreOf(Lookup(targets, key), Members(samples, TargetKey(), key));
    if score.Some? {
      CollectedLast(front, score.value, MeanOf());
      OnlyLast(front, score.value, HasPair());
      forall value: Score -> int
        ensures Collected(Only(front, HasPair()) + [score.value], value)
             == Append(Collected(Only(front, HasPair()), value), score.value.cluster, value(score.value))
      {
        CollectedLast(Only(front, HasPair()), score.value, value);
      }
    }
  }

  lemma AddsRest(samples: seq<Sample>, targets: map<nat, Target>, keys: seq<nat>)
    requires keys != []
    ensures var key := keys[|keys| - 1];
            var t := Lookup(targets, key);
            var valid := Counting(t, Members(samples, TargetKey(), key));
            && (valid == [] ==>
                  && Resolved(samples, targets, keys) == Resolved(samples, targets, keys[..|keys| - 1])
                  && PairedSamples(samples, targets, keys) == PairedSamples(samples, targets, keys[..|keys| - 1]))
            && (valid != [] ==>
                  && Resolved(samples, targets, keys) ==
                       Resolved(samples, targets, keys[..|keys| - 1]) + Mapped(valid, AsResolved(t.resolution.outcome))
                  && PairedSamples(samples, targets, keys) ==
                       PairedSamples(samples, targets, keys[..|keys| - 1]) + |Only(valid, HasControl())|)
  {
    hide Members, IsResolved, HasControl, AsResolved;
  }

  lemma AddsTarget(samples: seq<Sample>, targets: map<nat, Target>, keys: seq<nat>)
    requires keys != []
    ensures PartialOf(samples, targets, keys) ==
              var key := keys[|keys| - 1];
              AddTarget(
                Lookup(targets, key), Members(samples, TargetKey(), key),
                PartialOf(samples, targets, keys[..|keys| - 1]))
  {
    hide Members, Counting, ScoreFor, ResolvedTo, Resolved, PairedSamples, Append, Scores, Collected, Only, IsMature,
      IsMissing, IsCancelled, Lookup, Mapped, AsResolved;
    AddsScore(samples, targets, keys);
    AddsRest(samples, targets, keys);
  }

  /** The grouping and counting loops of `assessment_values`. */
  method TallyTargets(samples: seq<Sample>, targets: map<nat, Target>) returns (t: Tally)
    ensures t == TallyOf(samples, targets)
  {
    hide Keys, Members, AddTarget;
    var missingControls, incompatible := CountControls(samples);
    var order, byTarget := GroupBy(samples, TargetKey());
    var p := Partial(0, 0, 0, [], [], Groups([], map[]), Groups([], map[]), Groups([], map[]), 0, 0);
    for k := 0 to |order|
      invariant p == PartialOf(samples, targets, order[..k])
    {
      assert order[..k + 1][..k] == order[..k];
      assert order[k] in order;
      var members := byTarget[order[k]];
      assert members == Bucket(byTarget, order[k]);
      AddsTarget(samples, targets, order[..k + 1]);
      p := TallyTarget(Lookup(targets, order[k]), members, p);
    }
    assert order[..|order|] == order;
    t := Tally(
      |order|, p.mature, p.missing, p.cancelled, p.scores, p.resolved, p.clusters, p.pairedClusters, p.controlClusters,
      p.pairedSamples, p.pairedTargets, missingControls, incompatible);
  }

  // ---------- populations ----------

  lemma {:induction false} PopulationsFit(samples: seq<Sample>, targets: map<nat, Target>, keys: seq<nat>)
    ensures var scores := Scores(samples, targets, keys);
            && |scores| + Count(targets, keys, IsMissing()) + Count(targets, keys, IsCancelled())
               <= Count(targets, keys, IsMature()) <= |keys|
            && |scores| <= |Resolved(samples, targets, keys)|
            && |Only(scores, HasPair())| <= PairedSamples(samples, targets, keys) <= |Resolved(samples, targets, keys)|
  {
    hide Members, Mean, Only;
    if keys != [] {
      PopulationsFit(samples, targets, keys[..|keys| - 1]);
      var front := Scores(samples, targets, keys[..|keys| - 1]);
      var score := ScoreOf(Lookup(targets, keys[|keys| - 1]), Members(samples, TargetKey(), keys[|keys| - 1]));
      if score.Some? { OnlyLast(front, score.value, HasPair()); }
    }
  }

  lemma {:induction false} ControlsPartition(samples: seq<Sample>)
    ensures |samples| ==
              |Only(samples, LacksControl())| + |Only(samples, HasIncompatible())| + |Only(samples, HasComparable())|
  {
    hide Only;
    if samples == [] {
      assert |Only(samples, HasComparable())| <= 0;
    } else {
      var n := |samples| - 1;
      assert samples == samples[..n] + [samples[n]];
      ControlsPartition(samples[..n]);
      ControlsLast(samples[..n], samples[n]);
    }
  }

  /** The populations fit inside each other: every mature target is counted once, as scored, missing, cancelled or still
      open, so coverage is a proportion; paired targets are scored; and the comparable controls are what the other two
      counters leave. */
  lemma CoverageIsProportion(samples: seq<Sample>, targets: map<nat, Target>)
    ensures var t := TallyOf(samples, targets);
            && |t.scores| + t.missing + t.cancelled <= t.mature <= t.targets <= |samples|
            && t.pairedTargets <= |t.scores| <= |t.resolved| && t.pairedTargets <= t.pairedSamples <= |t.resolved|
            && t.missingControls + t.incompatibleControls + |Only(samples, HasComparable())| == |samples|
  {
    PopulationsFit(samples, targets, Keys(samples, TargetKey()));
    ControlsPartition(samples);
    KeysFit(samples, TargetKey());
  }

  // ---------- scores ----------

  predicate AllValid(samples: seq<Sample>) {
    forall k :: 0 <= k < |samples| ==>
      Valid(samples[k].p) && (samples[k].control.Comparable? ==> Valid(samples[k].control.p))
  }

  predicate Bounded(s: Score) {
    && 0 <= s.mean <= 666667
    && (s.pair.Some? ==> 0 <= s.pair.value.model <= 666667 && 0 <= s.pair.value.control <= 666667)
  }

  predicate AllBounded(scores: seq<Score>) {
    forall k :: 0 <= k < |scores| ==> Bounded(scores[k])
  }

  lemma {:induction false} MembersValid(samples: seq<Sample>, key: nat)
    requires AllValid(samples)
    ensures AllValid(Members(samples, TargetKey(), key))
  {
    hide Valid;
    if samples != [] { MembersValid(samples[..|samples| - 1], key); }
  }

  lemma OnlyValid(samples: seq<Sample>, p: Sample -> bool)
    requires AllValid(samples)
    ensures AllValid(Only(samples, p))
  {
    hide Only, Valid;
    forall k | 0 <= k < |Only(samples, p)|
      ensures var s := Only(samples, p)[k]; Valid(s.p) && (s.control.Comparable? ==> Valid(s.control.p))
    {
      var j :| 0 <= j < |samples| && samples[j] == Only(samples, p)[k];
    }
  }

  lemma BrierMeans(samples: seq<Sample>, o: Outcome)
    requires AllValid(samples) && samples != []
    ensures 0 <= Mean(Mapped(samples, BrierFor(o))) <= 666667
    ensures 0 <= Mean(Once(Mapped(samples, ControlBrier(o)))) <= 666667
  {
    hide Mean, Brier, Valid, Once, Mapped;
    var scores, controls := Mapped(samples, BrierFor(o)), Mapped(samples, ControlBrier(o));
    forall k | 0 <= k < |samples|
      ensures 0 <= scores[k] <= 666667 && 0 <= controls[k] <= 666667
    {
      BrierBounds(samples[k].p, o);
      if samples[k].control.Comparable? { BrierBounds(samples[k].control.p, o); }
    }
    MeanBounds(scores, 0, 666667);
    forall k | 0 <= k < |Once(controls)|
      ensures 0 <= Once(controls)[k] <= 666667
    {
      assert Once(controls)[k] in controls;
    }
    MeanBounds(Once(controls), 0, 666667);
  }

  lemma ScoreBounds(t: Target, members: seq<Sample>)
    requires AllValid(members)
    ensures ScoreOf(t, members).Some? ==> Bounded(ScoreOf(t, members).value)
  {
    hide Valid, Only, Mean, Once, AllValid;
    var valid := Counting(t, members);
    if valid != [] {
      OnlyValid(members, IsResolved());
      OnlyValid(valid, HasControl());
      BrierMeans(valid, t.resolution.outcome);
      if Only(valid, HasControl()) != [] { BrierMeans(Only(valid, HasControl()), t.resolution.outcome); }
    }
  }

  lemma {:induction false} ScoresBounds(samples: seq<Sample>, targets: map<nat, Target>, keys: seq<nat>)
    requires AllValid(samples)
    ensures AllBounded(Scores(samples, targets, keys))
  {
    hide AllValid, Members, ScoreOf, Bounded;
    if keys != [] {
      var key := keys[|keys| - 1];
      ScoresBounds(samples, targets, keys[..|keys| - 1]);
      MembersValid(samples, key);
      ScoreBounds(Lookup(targets, key), Members(samples, TargetKey(), key));
    }
  }

  lemma {:induction false} MembersBounded(scores: seq<Score>, c: nat)
    requires AllBounded(scores)
    ensures AllBounded(Members(scores, ClusterKey(), c))
  {
    hide Bounded;
    if scores != [] { MembersBounded(scores[..|scores| - 1], c); }
  }

  /** The mean through both levels, and the interval around it. */
  lemma EraMeanInInterval(scores: seq<Score>, value: Score -> int, half: Half, differences: bool)
    requires scores != [] && AllBounded(scores)
    requires forall s :: Bounded(s) ==> (if differences then -666667 else 0) <= value(s) <= 666667
    ensures var mean := EraMean(scores, value).value;
            var i := ClusterInterval(mean, half.width, half.parts, differences);
            (if differences then -666667 else 0) <= i.low <= mean <= i.high <= 666667
  {
    hide Members, Keys, Bounded, Mapped, AllBounded, Clusters, ClusterMeans, Mean, ClusterInterval;
    var keys := Keys(scores, ClusterKey());
    var clusters := Clusters(scores, keys, value);
    KeysAre(scores, ClusterKey());
    assert forall k :: 0 <= k < |keys| ==> keys[k] in keys;
    ClustersFilled(scores, keys, value);
    WeeksFilled(scores, value);
    forall k, j | 0 <= k < |clusters| && 0 <= j < |clusters[k]|
      ensures (if differences then -666667 else 0) <= clusters[k][j] <= 666667
    {
      MembersBounded(scores, keys[k]);
      EachBounded(Members(scores, ClusterKey(), keys[k]), j);
    }
    IntervalContainsMean(clusters, half.width, half.parts, differences);
  }

  lemma EachBounded(scores: seq<Score>, j: nat)
    requires AllBounded(scores) && j < |scores|
    ensures Bounded(scores[j])
  {
  }

  /** The era's mean score, its mean improvement on the controls and both intervals: each mean lies in its rounded
      range and inside the interval reported around it. */
  lemma MeanScoreInInterval(samples: seq<Sample>, targets: map<nat, Target>, half: Half)
    requires AllValid(samples)
    ensures var scores := TallyOf(samples, targets).scores;
            && (scores != [] ==>
                  var mean := EraMean(scores, MeanOf()).value;
                  var i := ClusterInterval(mean, half.width, half.parts, false);
                  0 <= i.low <= mean <= i.high <= 666667)
            && (Only(scores, HasPair()) != [] ==>
                  var mean := EraMean(Only(scores, HasPair()), DeltaOf()).value;
                  var i := ClusterInterval(mean, half.width, half.parts, true);
                  -666667 <= i.low <= mean <= i.high <= 666667)
  {
    hide Scores, Keys, Members, EraMean, ClusterInterval, AllValid, Only;
    var scores := TallyOf(samples, targets).scores;
    ScoresBounds(samples, targets, Keys(samples, TargetKey()));
    var paired := Only(scores, HasPair());
    assert AllBounded(paired) by {
      assert forall k :: 0 <= k < |paired| ==> paired[k] in scores;
    }
    if scores != [] { EraMeanInInterval(scores, MeanOf(), half, false); }
    if paired != [] { EraMeanInInterval(paired, DeltaOf(), half, true); }
  }
}
