/** Recommending a target more often changes neither what an era scores nor the status it ends with. */
module Replication {
  import opened Rows
  import opened Grouping
  import opened Scoring
  import opened Populations
  import opened PopulationStatus
  import Calibration
  import CalibrationReplication

  // ---------- one target ----------

  lemma {:induction false} OnceAbsorbs(a: seq<int>, b: seq<int>)
    requires forall v :: v in b ==> v in a
    ensures Once(a + b) == Once(a)
  {
    if b == [] {
      assert a + b == a;
    } else {
      var front, last := b[..|b| - 1], b[|b| - 1];
      assert (a + b)[..|a + b| - 1] == a + front;
      assert last in b;
      OnceAbsorbs(a, front);
    }
  }

  lemma {:induction false} OnceCopies(values: seq<int>, times: nat)
    requires times > 0
    ensures Once(Copies(values, times)) == Once(values)
    ensures forall v :: v in Copies(values, times) <==> v in values
  {
    if times == 1 {
      assert Copies(values, 1) == [] + values == values;
    } else {
      OnceCopies(values, times - 1);
      OnceAbsorbs(Copies(values, times - 1), values);
    }
  }

  lemma PairAlike(paired: seq<Sample>, times: nat, o: Outcome)
    requires times > 0
    ensures PairOf(Copies(paired, times), o) == PairOf(paired, o)
  {
    hide Mean, Once, Copies, Mapped, BrierFor, ControlBrier;
    CopiesLength(paired, times);
    if paired != [] {
      MappedCopies(paired, times, BrierFor(o));
      MappedCopies(paired, times, ControlBrier(o));
      ReplicationInvariant(Mapped(paired, BrierFor(o)), times);
      OnceCopies(Mapped(paired, ControlBrier(o)), times);
    }
  }

  /** Issuing every recommendation of a target several times over leaves its score and its pair alone. */
  lemma CopiesScoreAlike(t: Target, members: seq<Sample>, times: nat)
    requires times > 0
    ensures ScoreOf(t, Copies(members, times)) == ScoreOf(t, members)
    ensures ResolvedTo(t, Copies(members, times)) == Copies(ResolvedTo(t, members), times)
  {
    hide Mean, PairOf, Copies, Mapped, BrierFor, Only, AsResolved, IsResolved, HasControl;
    CountingCopies(t, members, times);
    var valid := Counting(t, members);
    CopiesLength(valid, times);
    if valid != [] {
      var o := t.resolution.outcome;
      FirstCopy(valid, times);
      MappedCopies(valid, times, BrierFor(o));
      MappedCopies(valid, times, AsResolved(o));
      ReplicationInvariant(Mapped(valid, BrierFor(o)), times);
      OnlyCopies(valid, times, HasControl());
      PairAlike(Only(valid, HasControl()), times, o);
    } else {
      NothingResolved(t, members, times);
    }
  }

  lemma CountingCopies(t: Target, members: seq<Sample>, times: nat)
    ensures Counting(t, Copies(members, times)) == Copies(Counting(t, members), times)
  {
    hide Copies, Only;
    OnlyCopies(members, times, IsResolved());
    NoCopies<Sample>(times);
  }

  lemma {:induction false} NoCopies<T>(times: nat)
    ensures Copies<T>([], times) == []
  {
    if times > 0 { NoCopies<T>(times - 1); }
  }

  lemma NothingResolved(t: Target, members: seq<Sample>, times: nat)
    requires Counting(t, members) == []
    ensures ResolvedTo(t, Copies(members, times)) == Copies(ResolvedTo(t, members), times)
  {
    CountingCopies(t, members, times);
    NoCopies<Sample>(times);
    NoCopies<Calibration.Sample>(times);
  }

  // ---------- lists of scores in any order ----------

  /** The same scores, each as often, whatever their order. */
  ghost predicate SameBag(a: seq<Score>, b: seq<Score>) {
    forall f: Score -> real :: Total(a, f) == Total(b, f)
  }

  function Where(p: Score -> bool, f: Score -> real): Score -> real {
    (s: Score) => if p(s) then f(s) else 0.0
  }

  lemma {:induction false} TotalOnly(a: seq<Score>, p: Score -> bool, f: Score -> real)
    ensures Total(Only(a, p), f) == Total(a, Where(p, f))
  {
    if a != [] {
      var front, last := a[..|a| - 1], a[|a| - 1];
      TotalOnly(front, p, f);
      var rest := Only(front, p);
      assert (rest + [last])[..|rest|] == rest;
    }
  }

  lemma BagOnly(a: seq<Score>, b: seq<Score>, p: Score -> bool)
    requires SameBag(a, b)
    ensures SameBag(Only(a, p), Only(b, p))
  {
    hide Only, Total;
    forall f: Score -> real
      ensures Total(Only(a, p), f) == Total(Only(b, p), f)
    {
      TotalOnly(a, p, f);
      TotalOnly(b, p, f);
    }
  }

  function InCluster(c: nat): Score -> bool { (s: Score) => s.cluster == c }

  lemma {:induction false} MembersOnly(a: seq<Score>, c: nat)
    ensures Members(a, ClusterKey(), c) == Only(a, InCluster(c))
  {
    if a != [] { MembersOnly(a[..|a| - 1], c); }
  }

  lemma BagLength(a: seq<Score>, b: seq<Score>)
    requires SameBag(a, b)
    ensures |a| == |b|
  {
    hide Total;
    TotalConstant(a, One(), 1.0);
    TotalConstant(b, One(), 1.0);
  }

  lemma BagKeys(a: seq<Score>, b: seq<Score>)
    requires SameBag(a, b)
    ensures forall c :: c in Keys(a, ClusterKey()) <==> c in Keys(b, ClusterKey())
    ensures |Keys(a, ClusterKey())| == |Keys(b, ClusterKey())|
  {
    hide Members, Keys, Only, SameBag;
    KeysAre(a, ClusterKey());
    KeysAre(b, ClusterKey());
    forall c
      ensures c in Keys(a, ClusterKey()) <==> c in Keys(b, ClusterKey())
    {
      MembersOnly(a, c);
      MembersOnly(b, c);
      BagOnly(a, b, InCluster(c));
      BagLength(Only(a, InCluster(c)), Only(b, InCluster(c)));
    }
    SameLength(Keys(a, ClusterKey()), Keys(b, ClusterKey()));
  }

  function AsReal(value: Score -> int): Score -> real { (s: Score) => value(s) as real }

  lemma {:induction false} SumTotal(a: seq<Score>, value: Score -> int)
    ensures Sum(Mapped(a, value)) as real == Total(a, AsReal(value))
  {
    if a != [] {
      var front, last := a[..|a| - 1], a[|a| - 1];
      SumTotal(front, value);
      var rest := Mapped(front, value);
      assert (rest + [value(last)])[..|rest|] == rest;
    }
  }

  lemma BagMean(a: seq<Score>, b: seq<Score>, value: Score -> int)
    requires SameBag(a, b) && a != []
    ensures b != [] && Mean(Mapped(a, value)) == Mean(Mapped(b, value))
  {
    hide Total, Sum, Mapped;
    BagLength(a, b);
    SumTotal(a, value);
    SumTotal(b, value);
  }

  /** The mean of one week, as its share in the mean of the means. */
  function WeekMean(scores: seq<Score>, value: Score -> int): nat -> real {
    (c: nat) =>
      var week := Members(scores, ClusterKey(), c);
      if week == [] then 0.0 else Mean(Mapped(week, value)) as real
  }

  lemma {:induction false} WeekMeans(scores: seq<Score>, keys: seq<nat>, value: Score -> int)
    requires forall k :: 0 <= k < |keys| ==> Members(scores, ClusterKey(), keys[k]) != []
    ensures forall k :: 0 <= k < |keys| ==> Clusters(scores, keys, value)[k] != []
    ensures Sum(ClusterMeans(Clusters(scores, keys, value))) as real == Total(keys, WeekMean(scores, value))
  {
    hide Members, Mean, Mapped;
    ClustersFilled(scores, keys, value);
    if keys != [] {
      var front := keys[..|keys| - 1];
      WeekMeans(scores, front, value);
      var clusters := Clusters(scores, keys, value);
      assert clusters[..|front|] == Clusters(scores, front, value);
      var means := ClusterMeans(Clusters(scores, front, value));
      assert (means + [Mean(clusters[|front|])])[..|means|] == means;
    }
  }

  lemma EraMeanIs(scores: seq<Score>, value: Score -> int)
    requires scores != []
    ensures var keys := Keys(scores, ClusterKey());
            && keys != [] && EraMean(scores, value).Some?
            && exists sum :: sum as real == Total(keys, WeekMean(scores, value))
                             && EraMean(scores, value).value == Rounding.HalfEven(sum, |keys|)
  {
    hide Members, Keys, Total, WeekMean, Rounding.HalfEven;
    var keys := Keys(scores, ClusterKey());
    KeysAre(scores, ClusterKey());
    NoKeys(scores, ClusterKey());
    assert forall k :: 0 <= k < |keys| ==> keys[k] in keys;
    WeekMeans(scores, keys, value);
    WeeksFilled(scores, value);
    var means := ClusterMeans(Clusters(scores, keys, value));
    assert EraMean(scores, value).value == Rounding.HalfEven(Sum(means), |keys|);
  }

  lemma BagEraMean(a: seq<Score>, b: seq<Score>, value: Score -> int)
    requires SameBag(a, b)
    ensures EraMean(a, value) == EraMean(b, value)
  {
    hide Members, Keys, Total, WeekMean, EraMean, Rounding.HalfEven, SameBag;
    BagLength(a, b);
    if a == [] {
      assert EraMean(a, value).None? && EraMean(b, value).None? by { NoEra(value); }
    } else {
      EraMeanIs(a, value);
      EraMeanIs(b, value);
      BagKeys(a, b);
      KeysAre(a, ClusterKey());
      KeysAre(b, ClusterKey());
      var order, keys := Keys(a, ClusterKey()), Keys(b, ClusterKey());
      TotalElsewhere(order, keys, WeekMean(a, value));
      forall i | 0 <= i < |keys|
        ensures WeekMean(a, value)(keys[i]) == WeekMean(b, value)(keys[i])
      {
        BagWeek(a, b, value, keys[i]);
      }
      TotalSame(keys, WeekMean(a, value), WeekMean(b, value));
    }
  }

  lemma NoEra(value: Score -> int)
    ensures EraMean([], value).None?
  {
  }

  lemma BagWeek(a: seq<Score>, b: seq<Score>, value: Score -> int, c: nat)
    requires SameBag(a, b)
    ensures WeekMean(a, value)(c) == WeekMean(b, value)(c)
  {
    hide Only, Mean, Mapped, SameBag;
    MembersOnly(a, c);
    MembersOnly(b, c);
    BagOnly(a, b, InCluster(c));
    BagLength(Only(a, InCluster(c)), Only(b, InCluster(c)));
    if Only(a, InCluster(c)) != [] {
      BagMean(Only(a, InCluster(c)), Only(b, InCluster(c)), value);
    }
  }

  // ---------- the population ----------

  /** What the target `k` adds to a total over all scores. */
  function ScoreValue(samples: seq<Sample>, targets: map<nat, Target>, f: Score -> real): nat -> real {
    (k: nat) =>
      var score := ScoreOf(Lookup(targets, k), Members(samples, TargetKey(), k));
      if score.Some? then f(score.value) else 0.0
  }

  lemma {:induction false} ScoresTotal(samples: seq<Sample>, targets: map<nat, Target>, keys: seq<nat>,
      f: Score -> real)
    ensures Total(Scores(samples, targets, keys), f) == Total(keys, ScoreValue(samples, targets, f))
  {
    hide ScoreOf, Members;
    if keys != [] {
      var front := keys[..|keys| - 1];
      ScoresTotal(samples, targets, front, f);
      var rest := Scores(samples, targets, front);
      var score := ScoreOf(Lookup(targets, keys[|keys| - 1]), Members(samples, TargetKey(), keys[|keys| - 1]));
      if score.Some? { assert (rest + [score.value])[..|rest|] == rest; }
    }
  }

  /** Replication gives the same scores, in some order. */
  lemma ReplicationKeepsScores(more: seq<Sample>, samples: seq<Sample>, targets: map<nat, Target>, times: nat -> nat)
    requires Replicates(more, samples, TargetKey(), times)
    ensures forall k :: k in Keys(more, TargetKey()) <==> k in Keys(samples, TargetKey())
    ensures SameBag(TallyOf(more, targets).scores, TallyOf(samples, targets).scores)
  {
    hide Members, Keys, Scores, ScoreOf, Total;
    var order, keys := Keys(more, TargetKey()), Keys(samples, TargetKey());
    SameKeys(more, samples, TargetKey(), times);
    KeysAre(more, TargetKey());
    KeysAre(samples, TargetKey());
    forall f: Score -> real
      ensures Total(Scores(more, targets, order), f) == Total(Scores(samples, targets, keys), f)
    {
      ScoresTotal(more, targets, order, f);
      ScoresTotal(samples, targets, keys, f);
      TotalElsewhere(order, keys, ScoreValue(more, targets, f));
      forall i | 0 <= i < |keys|
        ensures ScoreValue(more, targets, f)(keys[i]) == ScoreValue(samples, targets, f)(keys[i])
      {
        var k := keys[i];
        assert times(k) > 0 && Members(more, TargetKey(), k) == Copies(Members(samples, TargetKey(), k), times(k));
        CopiesScoreAlike(Lookup(targets, k), Members(samples, TargetKey(), k), times(k));
      }
      TotalSame(keys, ScoreValue(more, targets, f), ScoreValue(samples, targets, f));
    }
  }

  /** So the era keeps its weeks and every mean over them: of scores, models, controls and their differences. */
  lemma ReplicationKeepsMeans(
    more: seq<Sample>, samples: seq<Sample>, targets: map<nat, Target>, times: nat -> nat, value: Score -> int)
    requires Replicates(more, samples, TargetKey(), times)
    ensures var a, b := TallyOf(more, targets).scores, TallyOf(samples, targets).scores;
            && |a| == |b| && (forall c :: c in Keys(a, ClusterKey()) <==> c in Keys(b, ClusterKey()))
            && EraMean(a, value) == EraMean(b, value)
            && EraMean(Only(a, HasPair()), value) == EraMean(Only(b, HasPair()), value)
  {
    hide TallyOf, EraMean, Keys, Only, SameBag, Replicates;
    ReplicationKeepsScores(more, samples, targets, times);
    var a, b := TallyOf(more, targets).scores, TallyOf(samples, targets).scores;
    BagLength(a, b);
    BagKeys(a, b);
    BagEraMean(a, b, value);
    BagOnly(a, b, HasPair());
    BagEraMean(Only(a, HasPair()), Only(b, HasPair()), value);
  }

  function Indicator(targets: map<nat, Target>, p: Target -> bool): nat -> real {
    (k: nat) => if p(Lookup(targets, k)) then 1.0 else 0.0
  }

  lemma {:induction false} CountTotal(targets: map<nat, Target>, keys: seq<nat>, p: Target -> bool)
    ensures Count(targets, keys, p) as real == Total(keys, Indicator(targets, p))
  {
    hide Lookup;
    if keys != [] { CountTotal(targets, keys[..|keys| - 1], p); }
  }

  lemma SameCount(targets: map<nat, Target>, order: seq<nat>, keys: seq<nat>, p: Target -> bool)
    requires Distinct(order) && Distinct(keys) && forall k :: k in order <==> k in keys
    ensures Count(targets, order, p) == Count(targets, keys, p)
  {
    CountTotal(targets, order, p);
    CountTotal(targets, keys, p);
    TotalElsewhere(order, keys, Indicator(targets, p));
  }

  // ---------- what the calibration error is computed from ----------

  /** A target's resolved samples are those of its bucket. */
  lemma {:induction false} ResolvedMembers(samples: seq<Sample>, targets: map<nat, Target>, keys: seq<nat>, k: nat)
    requires Distinct(keys)
    ensures Members(Resolved(samples, targets, keys), Calibration.TargetOf(), k) ==
              if k in keys then ResolvedTo(Lookup(targets, k), Members(samples, TargetKey(), k)) else []
  {
    hide Members, ResolvedTo;
    if keys == [] {
      NoMembers(Calibration.TargetOf());
    } else {
      var front, key := keys[..|keys| - 1], keys[|keys| - 1];
      ResolvedMembers(samples, targets, front, k);
      var last := ResolvedTo(Lookup(targets, key), Members(samples, TargetKey(), key));
      MembersConcat(Resolved(samples, targets, front), last, Calibration.TargetOf(), k);
      LastOf(keys, k);
      ResolvedToIs(Lookup(targets, key), Members(samples, TargetKey(), key), key, k);
    }
  }

  lemma ResolvedToIs(t: Target, members: seq<Sample>, key: nat, k: nat)
    requires forall i :: 0 <= i < |members| ==> TargetKey()(members[i]) == key
    ensures Members(ResolvedTo(t, members), Calibration.TargetOf(), k) ==
              if k == key then ResolvedTo(t, members) else []
  {
    hide Members, Only;
    var resolved := ResolvedTo(t, members);
    forall i | 0 <= i < |resolved|
      ensures Calibration.TargetOf()(resolved[i]) == key
    {
      var x := Counting(t, members)[i];
      assert x in members;
    }
    AllMembers(resolved, Calibration.TargetOf(), key, k);
  }

  lemma {:induction false} AllMembers<T>(s: seq<T>, key: T -> nat, of: nat, k: nat)
    requires forall i :: 0 <= i < |s| ==> key(s[i]) == of
    ensures Members(s, key, k) == if k == of then s else []
  {
    if s != [] { AllMembers(s[..|s| - 1], key, of, k); }
  }

  lemma BucketResolved(samples: seq<Sample>, targets: map<nat, Target>, k: nat)
    ensures Members(TallyOf(samples, targets).resolved, Calibration.TargetOf(), k) ==
              ResolvedTo(Lookup(targets, k), Members(samples, TargetKey(), k))
  {
    hide Members, Keys, Resolved, Scores, Collected;
    KeysAre(samples, TargetKey());
    ResolvedMembers(samples, targets, Keys(samples, TargetKey()), k);
    NothingFromNothing(Lookup(targets, k));
  }

  lemma NothingFromNothing(t: Target)
    ensures ResolvedTo(t, []) == []
  {
  }

  lemma ResolvedReplicates(more: seq<Sample>, samples: seq<Sample>, targets: map<nat, Target>, times: nat -> nat)
    requires Replicates(more, samples, TargetKey(), times)
    ensures Replicates(
              TallyOf(more, targets).resolved, TallyOf(samples, targets).resolved, Calibration.TargetOf(), times)
  {
    hide Members, TallyOf, ResolvedTo, Copies;
    forall k
      ensures times(k) > 0
      ensures Members(TallyOf(more, targets).resolved, Calibration.TargetOf(), k)
           == Copies(Members(TallyOf(samples, targets).resolved, Calibration.TargetOf(), k), times(k))
    {
      assert times(k) > 0 && Members(more, TargetKey(), k) == Copies(Members(samples, TargetKey(), k), times(k));
      BucketResolved(more, targets, k);
      BucketResolved(samples, targets, k);
      CopiesScoreAlike(Lookup(targets, k), Members(samples, TargetKey(), k), times(k));
    }
  }

  // ---------- controls ----------

  lemma {:induction false} InBucket(samples: seq<Sample>, x: Sample)
    ensures x in Members(samples, TargetKey(), x.target) <==> x in samples
  {
    if samples != [] {
      InBucket(samples[..|samples| - 1], x);
      LastOf(samples, x);
    }
  }

  lemma {:induction false} InCopies(samples: seq<Sample>, times: nat, x: Sample)
    requires times > 0
    ensures x in Copies(samples, times) <==> x in samples
  {
    if times == 1 {
      assert Copies(samples, 1) == [] + samples == samples;
    } else {
      InCopies(samples, times - 1, x);
    }
  }

  lemma SameElements(more: seq<Sample>, samples: seq<Sample>, times: nat -> nat, x: Sample)
    requires Replicates(more, samples, TargetKey(), times)
    ensures x in more <==> x in samples
  {
    hide Members, Copies;
    var k := x.target;
    assert times(k) > 0 && Members(more, TargetKey(), k) == Copies(Members(samples, TargetKey(), k), times(k));
    InBucket(more, x);
    InBucket(samples, x);
    InCopies(Members(samples, TargetKey(), k), times(k), x);
  }

  /** A flag some sample carries is still carried by some sample. */
  lemma SameFlag(more: seq<Sample>, samples: seq<Sample>, times: nat -> nat, p: Sample -> bool)
    requires Replicates(more, samples, TargetKey(), times)
    ensures Only(more, p) == [] <==> Only(samples, p) == []
  {
    hide Only, Replicates;
    if Only(more, p) != [] {
      var x := Only(more, p)[0];
      SameElements(more, samples, times, x);
      assert x in samples && p(x);
    }
    if Only(samples, p) != [] {
      var x := Only(samples, p)[0];
      SameElements(more, samples, times, x);
      assert x in more && p(x);
    }
  }

  // ---------- the decision ----------

  /** Every figure of the decision survives replication but the raw counts; of the control counters it survives whether
      they are zero. */
  lemma ReplicationKeepsFigures(
    more: seq<Sample>, samples: seq<Sample>, targets: map<nat, Target>, champion: map<nat, seq<int>>, days: nat,
    widths: Widths, times: nat -> nat)
    requires AllValid(more) && AllValid(samples) && Replicates(more, samples, TargetKey(), times)
    ensures var f := FiguresOf(samples, targets, champion, days, widths);
            var g := FiguresOf(more, targets, champion, days, widths);
            && g == f.(
                 samples := |more|, missingControls := g.missingControls,
                 incompatibleControls := g.incompatibleControls)
            && (g.missingControls == 0 <==> f.missingControls == 0)
            && (g.incompatibleControls == 0 <==> f.incompatibleControls == 0)
            && f.scored <= f.samples && g.scored <= g.samples
  {
    hide AllValid, Replicates, Keys, Scores, Resolved, Only, Count, Calibration.CalibrationMicros, Collected, SameBag,
      EraMean, Calibration.AllValid, PairedSamples;
    var t, u := TallyOf(samples, targets), TallyOf(more, targets);
    CoverageIsProportion(samples, targets);
    CoverageIsProportion(more, targets);
    ReplicationKeepsScores(more, samples, targets, times);
    BagFigures(u.scores, t.scores, champion, widths);
    ResolvedReplicates(more, samples, targets, times);
    ResolvedValid(samples, targets, Keys(samples, TargetKey()));
    ResolvedValid(more, targets, Keys(more, TargetKey()));
    CalibrationReplication.ReplicationKeepsCalibration(u.resolved, t.resolved, times);
    KeysAre(more, TargetKey());
    KeysAre(samples, TargetKey());
    SameCount(targets, Keys(more, TargetKey()), Keys(samples, TargetKey()), IsMature());
    SameFlag(more, samples, times, LacksControl());
    SameFlag(more, samples, times, HasIncompatible());
  }

  lemma BagFigures(a: seq<Score>, b: seq<Score>, champion: map<nat, seq<int>>, widths: Widths)
    requires SameBag(a, b)
    ensures |a| == |b| && |Keys(a, ClusterKey())| == |Keys(b, ClusterKey())|
    ensures High(a, MeanOf(), widths, false) == High(b, MeanOf(), widths, false)
    ensures var p, q := Only(a, HasPair()), Only(b, HasPair());
            && |p| == |q| && EraMean(p, ModelOf()) == EraMean(q, ModelOf())
            && EraMean(p, ControlOf()) == EraMean(q, ControlOf())
    ensures var p, q := Only(a, InChampion(champion)), Only(b, InChampion(champion));
            && |p| == |q| && |Keys(p, ClusterKey())| == |Keys(q, ClusterKey())|
            && High(p, Against(champion), widths, true) == High(q, Against(champion), widths, true)
  {
    hide Keys, Only, EraMean, SameBag, ClusterInterval;
    BagLength(a, b);
    BagHigh(a, b, MeanOf(), widths, false);
    BagOnly(a, b, HasPair());
    BagLength(Only(a, HasPair()), Only(b, HasPair()));
    BagEraMean(Only(a, HasPair()), Only(b, HasPair()), ModelOf());
    BagEraMean(Only(a, HasPair()), Only(b, HasPair()), ControlOf());
    BagOnly(a, b, InChampion(champion));
    BagLength(Only(a, InChampion(champion)), Only(b, InChampion(champion)));
    BagHigh(Only(a, InChampion(champion)), Only(b, InChampion(champion)), Against(champion), widths, true);
  }

  lemma BagHigh(a: seq<Score>, b: seq<Score>, value: Score -> int, widths: Widths, differences: bool)
    requires SameBag(a, b)
    ensures |Keys(a, ClusterKey())| == |Keys(b, ClusterKey())|
    ensures High(a, value, widths, differences) == High(b, value, widths, differences)
  {
    hide Keys, EraMean, SameBag, ClusterInterval;
    BagKeys(a, b);
    BagEraMean(a, b, value);
  }

  /** No assessment ends differently because some targets were recommended more often than others: the raw number of
      samples, which does grow, never decides, since every scored target has a sample. */
  lemma ReplicationKeepsStatus(
    kind: Kind, more: seq<Sample>, samples: seq<Sample>, targets: map<nat, Target>, champion: map<nat, seq<int>>,
    days: nat, widths: Widths, policy: Policy, times: nat -> nat)
    requires AllValid(more) && AllValid(samples) && Replicates(more, samples, TargetKey(), times)
    ensures StatusOf(kind, FiguresOf(more, targets, champion, days, widths), policy)
         == StatusOf(kind, FiguresOf(samples, targets, champion, days, widths), policy)
  {
    hide AllValid, Replicates, FiguresOf;
    ReplicationKeepsFigures(more, samples, targets, champion, days, widths, times);
  }
}
