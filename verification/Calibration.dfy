/** The weighted calibration error: samples are binned by their top probability, with every dependence cluster
    weighing the same. Weights and frequencies are exact reals; only the final value is rounded. */
module Calibration {
  import opened Grouping
  import opened Rows
  import opened Scoring
  import Rounding

  datatype Sample = Sample(cluster: nat, target: nat, p: Probabilities, outcome: Outcome)

  /** What a bin keeps of a sample. */
  datatype Entry = Entry(bin: nat, confidence: real, hit: real, weight: real)

  function ClusterOf(): Sample -> nat { (x: Sample) => x.cluster }
  function TargetOf(): Sample -> nat { (x: Sample) => x.target }
  function BinOf(): Entry -> nat { (e: Entry) => e.bin }

  /** The first of the most probable outcomes. */
  function Top(p: Probabilities): Outcome {
    if p.up >= p.neutral && p.up >= p.down then Up else if p.neutral >= p.down then Neutral else Down
  }

  /** With balancing, each target of a cluster weighs the same, and its samples share its weight. */
  function Weight(members: seq<Sample>, balanced: bool, x: Sample): real {
    if !balanced then (if members == [] then 0.0 else 1.0 / |members| as real)
    else
      var targets, same := |Keys(members, TargetOf())|, |Members(members, TargetOf(), x.target)|;
      if targets == 0 || same == 0 then 0.0 else 1.0 / targets as real / same as real
  }

  function WeightIn(members: seq<Sample>, balanced: bool): Sample -> real {
    (x: Sample) => Weight(members, balanced, x)
  }

  function MakeEntry(x: Sample, weight: real): Entry
    requires Valid(x.p)
  {
    var top := Top(x.p);
    var chance := Chance(x.p, top);
    Entry(chance * 10 / ONE, chance as real / ONE as real, if top == x.outcome then 1.0 else 0.0, weight)
  }

  predicate AllValid(samples: seq<Sample>) {
    forall i :: 0 <= i < |samples| ==> Valid(samples[i].p)
  }

  function EntriesOf(members: seq<Sample>, all: seq<Sample>, balanced: bool): seq<Entry>
    requires AllValid(members)
  {
    if members == [] then []
    else
      var n := |members| - 1;
      EntriesOf(members[..n], all, balanced) + [MakeEntry(members[n], Weight(all, balanced, members[n]))]
  }

  lemma {:induction false} MembersValid(samples: seq<Sample>, k: nat)
    requires AllValid(samples)
    ensures AllValid(Members(samples, ClusterOf(), k))
  {
    if samples != [] { MembersValid(samples[..|samples| - 1], k); }
  }

  /** The entries of the clusters `keys`, cluster by cluster. */
  function Entries(samples: seq<Sample>, keys: seq<nat>, balanced: bool): seq<Entry>
    requires AllValid(samples)
  {
    if keys == [] then []
    else
      var n := |keys| - 1;
      var members := Members(samples, ClusterOf(), keys[n]);
      MembersValid(samples, keys[n]);
      Entries(samples, keys[..n], balanced) + EntriesOf(members, members, balanced)
  }

  function WeightOf(): Entry -> real { (e: Entry) => e.weight }
  function SignedOf(): Entry -> real { (e: Entry) => (e.confidence - e.hit) * e.weight }
  function ConfidenceOf(): Entry -> real { (e: Entry) => e.confidence * e.weight }
  function HitOf(): Entry -> real { (e: Entry) => e.hit * e.weight }

  function Abs(x: real): real {
    if x < 0.0 then -x else x
  }

  /** How far a bin's confidence and frequency are apart, times its weight. */
  function Gap(entries: seq<Entry>): nat -> real {
    (b: nat) => Abs(Total(Members(entries, BinOf(), b), SignedOf()))
  }

  function CalibrationValue(samples: seq<Sample>, balanced: bool): real
    requires AllValid(samples) && samples != []
  {
    var keys := Keys(samples, ClusterOf());
    assert keys != [] by { KeysAre(samples, ClusterOf()); }
    var entries := Entries(samples, keys, balanced);
    Total(Keys(entries, BinOf()), Gap(entries)) / |keys| as real
  }

  /** The error as it is stored, in millionths. */
  function CalibrationMicros(samples: seq<Sample>, balanced: bool): Option<int>
    requires AllValid(samples)
  {
    if samples == [] then None
    else Some(Rounding.Nearest(CalibrationValue(samples, balanced) * ONE as real))
  }

  // ---------- weights ----------

  /** Under either weighting the samples of one cluster weigh exactly one together. */
  lemma WeightsSumToOne(members: seq<Sample>, balanced: bool)
    requires members != []
    ensures Total(members, WeightIn(members, balanced)) == 1.0
  {
    hide Weight;
    if balanced { BalancedSum(members); } else { EvenSum(members); }
  }

  lemma EvenSum(members: seq<Sample>)
    requires members != []
    ensures Total(members, WeightIn(members, false)) == 1.0
  {
    TotalConstant(members, WeightIn(members, false), 1.0 / |members| as real);
    Divide(1.0, |members|);
  }

  lemma BalancedSum(members: seq<Sample>)
    requires members != []
    ensures Total(members, WeightIn(members, true)) == 1.0
  {
    hide Weight, Total, Members, Keys, GroupTotal;
    var w, keys := WeightIn(members, true), Keys(members, TargetOf());
    KeysAre(members, TargetOf());
    assert TargetOf()(members[0]) in keys;
    var share := 1.0 / |keys| as real;
    GroupsSum(members, TargetOf(), w);
    forall i | 0 <= i < |keys|
      ensures GroupTotal(members, TargetOf(), w)(keys[i]) == share
    {
      assert keys[i] in keys;
      TargetShare(members, keys[i]);
    }
    TotalConstant(keys, GroupTotal(members, TargetOf(), w), share);
    Divide(1.0, |keys|);
  }

  /** One target's samples together weigh what every other target's do. */
  lemma TargetShare(members: seq<Sample>, k: nat)
    requires Members(members, TargetOf(), k) != [] && Keys(members, TargetOf()) != []
    ensures GroupTotal(members, TargetOf(), WeightIn(members, true))(k) == 1.0 / |Keys(members, TargetOf())| as real
  {
    hide Total, Members, Keys;
    var group := Members(members, TargetOf(), k);
    var share := 1.0 / |Keys(members, TargetOf())| as real;
    forall i | 0 <= i < |group|
      ensures WeightIn(members, true)(group[i]) == share / |group| as real
    {
      assert TargetOf()(group[i]) == k;
    }
    TotalConstant(group, WeightIn(members, true), share / |group| as real);
    Divide(share, |group|);
  }

  lemma Divide(x: real, n: nat)
    requires n > 0
    ensures n as real * (x / n as real) == x
  {
  }

  lemma WeightPositive(members: seq<Sample>, balanced: bool, i: nat)
    requires i < |members|
    ensures Weight(members, balanced, members[i]) > 0.0
  {
    hide Keys, Members;
    var x := members[i];
    KeysAre(members, TargetOf());
    assert TargetOf()(x) in Keys(members, TargetOf());
    if balanced {
      PositiveShare(|Keys(members, TargetOf())|, |Members(members, TargetOf(), x.target)|);
    }
  }

  lemma PositiveShare(m: nat, n: nat)
    requires m > 0 && n > 0
    ensures 1.0 / m as real / n as real > 0.0
  {
    var x := 1.0 / m as real;
    assert x > 0.0;
  }

  lemma {:induction false} EntriesOfTotal(members: seq<Sample>, all: seq<Sample>, balanced: bool)
    requires AllValid(members)
    ensures |EntriesOf(members, all, balanced)| == |members|
    ensures Total(EntriesOf(members, all, balanced), WeightOf()) == Total(members, WeightIn(all, balanced))
  {
    if members != [] {
      var n := |members| - 1;
      EntriesOfTotal(members[..n], all, balanced);
      var e := EntriesOf(members, all, balanced);
      assert e[..n] == EntriesOf(members[..n], all, balanced);
    }
  }

  predicate Sound(entries: seq<Entry>) {
    forall i :: 0 <= i < |entries| ==>
      entries[i].weight > 0.0 && 0.0 <= entries[i].confidence <= 1.0 && 0.0 <= entries[i].hit <= 1.0
          && entries[i].bin <= 10
  }

  lemma {:induction false} EntriesOfSound(members: seq<Sample>, all: seq<Sample>, balanced: bool)
    requires AllValid(members) && members <= all
    ensures Sound(EntriesOf(members, all, balanced))
  {
    hide Weight;
    if members != [] {
      var n := |members| - 1;
      EntriesOfSound(members[..n], all, balanced);
      WeightPositive(all, balanced, n);
      EntrySound(members[n], Weight(all, balanced, all[n]));
    }
  }

  lemma EntrySound(x: Sample, weight: real)
    requires Valid(x.p) && weight > 0.0
    ensures Sound([MakeEntry(x, weight)])
  {
  }

  /** Every cluster contributes weight one. */
  lemma {:induction false} EntriesTotal(samples: seq<Sample>, keys: seq<nat>, balanced: bool)
    requires AllValid(samples)
    requires forall i :: 0 <= i < |keys| ==> Members(samples, ClusterOf(), keys[i]) != []
    ensures Sound(Entries(samples, keys, balanced))
    ensures Total(Entries(samples, keys, balanced), WeightOf()) == |keys| as real
  {
    if keys != [] {
      var n := |keys| - 1;
      var members := Members(samples, ClusterOf(), keys[n]);
      MembersValid(samples, keys[n]);
      EntriesTotal(samples, keys[..n], balanced);
      EntriesOfTotal(members, members, balanced);
      EntriesOfSound(members, members, balanced);
      WeightsSumToOne(members, balanced);
      TotalConcat(Entries(samples, keys[..n], balanced), EntriesOf(members, members, balanced), WeightOf());
    }
  }

  // ---------- the error ----------

  lemma {:induction false} GapBound(entries: seq<Entry>)
    requires Sound(entries)
    ensures Abs(Total(entries, SignedOf())) <= Total(entries, WeightOf())
  {
    if entries != [] {
      var e := entries[|entries| - 1];
      GapBound(entries[..|entries| - 1]);
      SignedWithin(e);
    }
  }

  lemma SignedWithin(e: Entry)
    requires e.weight > 0.0 && 0.0 <= e.confidence <= 1.0 && 0.0 <= e.hit <= 1.0
    ensures -WeightOf()(e) <= SignedOf()(e) <= WeightOf()(e)
  {
    var d := e.confidence - e.hit;
    var product := d * e.weight;
    Within(d, e.weight, product);
    assert SignedOf()(e) == product;
  }

  lemma Within(d: real, w: real, product: real)
    requires -1.0 <= d <= 1.0 && w > 0.0 && product == d * w
    ensures -w <= product <= w
  {
    NonNegative(1.0 - d, w);
    NonNegative(1.0 + d, w);
    assert (1.0 - d) * w == w - d * w;
    assert (1.0 + d) * w == w + d * w;
  }

  lemma NonNegative(x: real, y: real)
    requires 0.0 <= x && 0.0 <= y
    ensures 0.0 <= x * y
  {
  }

  lemma {:induction false} MembersSound(entries: seq<Entry>, b: nat)
    requires Sound(entries)
    ensures Sound(Members(entries, BinOf(), b))
  {
    if entries != [] { MembersSound(entries[..|entries| - 1], b); }
  }

  /** The calibration error of any resolved samples lies between 0 and 1, under both weightings. */
  lemma CalibrationBounds(samples: seq<Sample>, balanced: bool)
    requires AllValid(samples) && samples != []
    ensures 0.0 <= CalibrationValue(samples, balanced) <= 1.0
  {
    hide Total, Members, Entries, Keys, Gap, Sound;
    var keys := Keys(samples, ClusterOf());
    KeysAre(samples, ClusterOf());
    assert ClusterOf()(samples[0]) in keys;
    forall i | 0 <= i < |keys|
      ensures Members(samples, ClusterOf(), keys[i]) != []
    {
      assert keys[i] in keys;
    }
    var entries := Entries(samples, keys, balanced);
    EntriesTotal(samples, keys, balanced);
    BinsBounded(entries);
    Ratio(Total(Keys(entries, BinOf()), Gap(entries)), |keys|);
  }

  /** All bins' gaps together stay within the weight of all entries. */
  lemma BinsBounded(entries: seq<Entry>)
    requires Sound(entries)
    ensures 0.0 <= Total(Keys(entries, BinOf()), Gap(entries)) <= Total(entries, WeightOf())
  {
    hide Total, Members, Keys, Sound;
    var bins := Keys(entries, BinOf());
    GroupsSum(entries, BinOf(), WeightOf());
    forall i | 0 <= i < |bins|
      ensures 0.0 <= Gap(entries)(bins[i]) <= GroupTotal(entries, BinOf(), WeightOf())(bins[i])
    {
      MembersSound(entries, bins[i]);
      GapBound(Members(entries, BinOf(), bins[i]));
    }
    TotalBounds(bins, Gap(entries), GroupTotal(entries, BinOf(), WeightOf()));
    TotalNonNegative(bins, Gap(entries));
  }

  lemma {:induction false} TotalNonNegative(s: seq<nat>, f: nat -> real)
    requires forall i :: 0 <= i < |s| ==> 0.0 <= f(s[i])
    ensures 0.0 <= Total(s, f)
  {
    if s != [] { TotalNonNegative(s[..|s| - 1], f); }
  }

  lemma Ratio(x: real, n: nat)
    requires n > 0 && 0.0 <= x <= n as real
    ensures 0.0 <= x / n as real <= 1.0
  {
  }

  lemma {:induction false} SplitSigned(entries: seq<Entry>)
    ensures Total(entries, SignedOf()) == Total(entries, ConfidenceOf()) - Total(entries, HitOf())
  {
    if entries != [] { SplitSigned(entries[..|entries| - 1]); }
  }

  lemma {:induction false} WeightTotalPositive(entries: seq<Entry>)
    requires Sound(entries) && entries != []
    ensures Total(entries, WeightOf()) > 0.0
  {
    if |entries| > 1 { WeightTotalPositive(entries[..|entries| - 1]); }
  }

  method SumOver(entries: seq<Entry>, f: Entry -> real) returns (total: real)
    ensures total == Total(entries, f)
  {
    total := 0.0;
    for k := 0 to |entries|
      invariant total == Total(entries[..k], f)
    {
      assert entries[..k + 1][..k] == entries[..k];
      total := total + f(entries[k]);
    }
    assert entries[..|entries|] == entries;
  }

  /** The loop over the clusters. */
  method BinEntries(samples: seq<Sample>, balanced: bool, order: seq<nat>, clusters: map<nat, seq<Sample>>)
      returns (entries: seq<Entry>)
    requires AllValid(samples)
    requires forall k :: Bucket(clusters, k) == Members(samples, ClusterOf(), k)
    requires forall k :: k in clusters <==> k in order
    ensures entries == Entries(samples, order, balanced)
  {
    hide Members, EntriesOf;
    entries := [];
    for c := 0 to |order|
      invariant entries == Entries(samples, order[..c], balanced)
    {
      assert order[..c + 1][..c] == order[..c];
      assert order[c] in order;
      var members := clusters[order[c]];
      assert members == Bucket(clusters, order[c]);
      MembersValid(samples, order[c]);
      var more := ClusterEntries(members, balanced);
      entries := entries + more;
    }
    assert order[..|order|] == order;
  }

  /** The loop over the bins. */
  method SumGaps(entries: seq<Entry>, order: seq<nat>, bins: map<nat, seq<Entry>>) returns (weighted: real)
    requires Sound(entries)
    requires order == Keys(entries, BinOf())
    requires forall k :: Bucket(bins, k) == Members(entries, BinOf(), k)
    requires forall k :: k in bins <==> k in order
    ensures weighted == Total(order, Gap(entries))
  {
    hide Members, Total, Gap, Keys;
    KeysAre(entries, BinOf());
    weighted := 0.0;
    NoGaps(entries, order);
    for b := 0 to |order|
      invariant weighted == Total(order[..b], Gap(entries))
    {
      assert order[b] in order;
      var values := bins[order[b]];
      assert values == Bucket(bins, order[b]);
      MembersSound(entries, order[b]);
      var gap := BinGap(values);
      GapAt(entries, order, b);
      weighted := weighted + gap;
    }
    assert order[..|order|] == order;
  }

  lemma NoGaps(entries: seq<Entry>, order: seq<nat>)
    ensures Total(order[..0], Gap(entries)) == 0.0
  {
  }

  /** `_calibration_error` */
  method CalibrationError(samples: seq<Sample>, balanced: bool) returns (error: Option<int>)
    requires AllValid(samples)
    ensures error == CalibrationMicros(samples, balanced)
    ensures error.Some? ==> 0 <= error.value <= ONE
  {
    hide Keys, Members, Total, Entries, Gap, Sound, AllValid, Rounding.Nearest;
    var order, clusters := GroupBy(samples, ClusterOf());
    if samples == [] {
      return None;
    }
    KeysAre(samples, ClusterOf());
    var entries := BinEntries(samples, balanced, order, clusters);
    forall i | 0 <= i < |order|
      ensures Members(samples, ClusterOf(), order[i]) != []
    {
      assert order[i] in order;
    }
    EntriesTotal(samples, order, balanced);
    var binOrder, bins := GroupBy(entries, BinOf());
    var weighted := SumGaps(entries, binOrder, bins);
    assert ClusterOf()(samples[0]) in order;
    error := Some(Rounding.Nearest(weighted / |order| as real * ONE as real));
    MicrosBounds(samples, balanced);
  }

  /** The stored error lies between nothing and one, too. */
  lemma MicrosBounds(samples: seq<Sample>, balanced: bool)
    requires AllValid(samples)
    ensures var error := CalibrationMicros(samples, balanced);
            error.Some? ==> 0 <= error.value <= ONE
  {
    hide AllValid, CalibrationValue, Rounding.Nearest;
    if samples != [] {
      CalibrationBounds(samples, balanced);
      var value := CalibrationValue(samples, balanced) * ONE as real;
      Rounding.NearestBound(value, 0);
      Rounding.NearestBound(value, ONE);
    }
  }

  lemma GapAt(entries: seq<Entry>, binOrder: seq<nat>, b: nat)
    requires b < |binOrder|
    ensures Total(binOrder[..b + 1], Gap(entries)) ==
              Total(binOrder[..b], Gap(entries)) + Abs(Total(Members(entries, BinOf(), binOrder[b]), SignedOf()))
  {
    assert binOrder[..b + 1][..b] == binOrder[..b];
  }

  /** One bin's weight times the distance of its confidence from its frequency. */
  method BinGap(values: seq<Entry>) returns (gap: real)
    requires values != [] && Sound(values)
    ensures gap == Abs(Total(values, SignedOf()))
  {
    hide Total, ConfidenceOf, HitOf, WeightOf, SignedOf;
    var binWeight := SumOver(values, WeightOf());
    WeightTotalPositive(values);
    var confidence := SumOver(values, ConfidenceOf());
    var frequency := SumOver(values, HitOf());
    gap := binWeight * Abs(confidence / binWeight - frequency / binWeight);
    SplitSigned(values);
    Rescale(binWeight, confidence, frequency);
  }

  lemma Rescale(w: real, x: real, y: real)
    requires w > 0.0
    ensures w * Abs(x / w - y / w) == Abs(x - y)
  {
    var p, q := x / w, y / w;
    assert p * w == x && q * w == y;
    assert (p - q) * w == x - y;
    if p - q < 0.0 {
      assert (q - p) * w > 0.0;
    } else {
      assert (p - q) * w >= 0.0;
    }
  }

  /** The loop over one cluster's samples. */
  method ClusterEntries(members: seq<Sample>, balanced: bool) returns (entries: seq<Entry>)
    requires AllValid(members)
    ensures entries == EntriesOf(members, members, balanced)
  {
    hide Keys, Members, MakeEntry;
    var targets, counts := GroupBy(members, TargetOf());
    KeysAre(members, TargetOf());
    entries := [];
    for k := 0 to |members|
      invariant entries == EntriesOf(members[..k], members, balanced)
    {
      assert members[..k + 1][..k] == members[..k];
      var x := members[k];
      assert TargetOf()(x) in targets;
      assert Bucket(counts, x.target) == Members(members, TargetOf(), x.target);
      var weight := if balanced then 1.0 / |targets| as real / |counts[x.target]| as real else 1.0 / |members| as real;
      entries := entries + [MakeEntry(x, weight)];
    }
    assert members[..|members|] == members;
  }
}
