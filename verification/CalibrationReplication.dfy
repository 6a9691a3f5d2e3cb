/** Issuing more recommendations for some targets than for others does not move the target-balanced calibration
    error. */
module CalibrationReplication {
  import opened Grouping
  import opened Scoring
  import opened Calibration
  import Rounding

  /** How far a sample's confidence is from its hit, if it falls into bin `b`. */
  function Miss(b: nat): Sample -> real {
    (x: Sample) =>
      var top := Top(x.p);
      var chance := Chance(x.p, top);
      if chance * 10 / ONE == b then chance as real / ONE as real - (if top == x.outcome then 1.0 else 0.0) else 0.0
  }

  function WeightedMiss(members: seq<Sample>, b: nat): Sample -> real {
    (x: Sample) => Miss(b)(x) * Weight(members, true, x)
  }

  /** What one cluster adds to the signed gap of bin `b`. */
  function ClusterMiss(members: seq<Sample>, b: nat): real {
    Total(members, WeightedMiss(members, b))
  }

  function MissBy(samples: seq<Sample>, b: nat): nat -> real {
    (c: nat) => ClusterMiss(Members(samples, ClusterOf(), c), b)
  }

  // ---------- the gap of a bin, cluster by cluster ----------

  function InBin(b: nat): Entry -> real {
    (e: Entry) => if e.bin == b then SignedOf()(e) else 0.0
  }

  lemma {:induction false} BinTotal(entries: seq<Entry>, b: nat)
    ensures Total(Members(entries, BinOf(), b), SignedOf()) == Total(entries, InBin(b))
  {
    if entries != [] {
      var front, last := entries[..|entries| - 1], entries[|entries| - 1];
      BinTotal(front, b);
      if last.bin == b {
        var rest := Members(front, BinOf(), b);
        assert (rest + [last])[..|rest|] == rest;
      }
    }
  }

  lemma {:induction false} EntriesOfMiss(members: seq<Sample>, all: seq<Sample>, b: nat)
    requires AllValid(members)
    ensures Total(EntriesOf(members, all, true), InBin(b)) == Total(members, WeightedMiss(all, b))
  {
    hide Weight;
    if members != [] {
      var n := |members| - 1;
      EntriesOfMiss(members[..n], all, b);
      var front, last := EntriesOf(members[..n], all, true), MakeEntry(members[n], Weight(all, true, members[n]));
      assert (front + [last])[..|front|] == front;
      EntryMiss(members[n], all, b);
    }
  }

  lemma EntryMiss(x: Sample, all: seq<Sample>, b: nat)
    requires Valid(x.p)
    ensures InBin(b)(MakeEntry(x, Weight(all, true, x))) == WeightedMiss(all, b)(x)
  {
    hide Weight, InBin, SignedOf;
    SignedIs(MakeEntry(x, Weight(all, true, x)), b, Miss(b)(x));
  }

  lemma SignedIs(e: Entry, b: nat, d: real)
    requires d == if e.bin == b then e.confidence - e.hit else 0.0
    ensures InBin(b)(e) == d * e.weight
  {
    if e.bin == b {
      var product := d * e.weight;
      assert product == e.confidence * e.weight - e.hit * e.weight;
      assert SignedOf()(e) == product;
    } else {
      assert 0.0 * e.weight == 0.0;
    }
  }

  lemma {:induction false} EntriesMiss(samples: seq<Sample>, keys: seq<nat>, b: nat)
    requires AllValid(samples)
    ensures Total(Entries(samples, keys, true), InBin(b)) == Total(keys, MissBy(samples, b))
  {
    hide Members, EntriesOf, WeightedMiss;
    if keys != [] {
      var n := |keys| - 1;
      var members := Members(samples, ClusterOf(), keys[n]);
      MembersValid(samples, keys[n]);
      EntriesMiss(samples, keys[..n], b);
      EntriesOfMiss(members, members, b);
      TotalConcat(Entries(samples, keys[..n], true), EntriesOf(members, members, true), InBin(b));
    }
  }

  // ---------- one cluster ----------

  lemma {:induction false} TotalScaled<T>(s: seq<T>, f: T -> real, g: T -> real, c: real)
    requires forall i :: 0 <= i < |s| ==> g(s[i]) == f(s[i]) * c
    ensures Total(s, g) == Total(s, f) * c
  {
    if s != [] {
      TotalScaled(s[..|s| - 1], f, g, c);
      assert (Total(s[..|s| - 1], f) + f(s[|s| - 1])) * c == Total(s[..|s| - 1], f) * c + f(s[|s| - 1]) * c;
    }
  }

  /** A target's part of its cluster is its average miss, times its share. */
  lemma TargetMiss(members: seq<Sample>, b: nat, k: nat)
    requires Members(members, TargetOf(), k) != [] && Keys(members, TargetOf()) != []
    ensures var group := Members(members, TargetOf(), k);
            GroupTotal(members, TargetOf(), WeightedMiss(members, b))(k) ==
              Total(group, Miss(b)) * (1.0 / |Keys(members, TargetOf())| as real / |group| as real)
  {
    hide Total, Members, Keys, Miss;
    var group := Members(members, TargetOf(), k);
    var c := 1.0 / |Keys(members, TargetOf())| as real / |group| as real;
    forall i | 0 <= i < |group|
      ensures WeightedMiss(members, b)(group[i]) == Miss(b)(group[i]) * c
    {
      assert TargetOf()(group[i]) == k;
    }
    TotalScaled(group, Miss(b), WeightedMiss(members, b), c);
  }

  /** Replication multiplies a target's misses and divides their weight. */
  lemma CopiesCancel(total: real, share: real, times: nat, n: nat)
    requires times > 0 && n > 0
    ensures times * n > 0 && (times as real * total) * (share / (times * n) as real) == total * (share / n as real)
  {
    Rounding.Scale(1, times, n);
    var t, m := times as real, n as real;
    assert (times * n) as real == t * m;
    var x, y := share / (t * m), share / m;
    assert x * (t * m) == share && y * m == share;
    assert (x * t) * m == y * m;
    assert x * t == y;
    assert (t * total) * x == total * (x * t);
  }

  lemma SameTargetMiss(more: seq<Sample>, members: seq<Sample>, times: nat -> nat, b: nat, k: nat)
    requires Replicates(more, members, TargetOf(), times) && Members(members, TargetOf(), k) != []
    ensures GroupTotal(more, TargetOf(), WeightedMiss(more, b))(k) ==
        GroupTotal(members, TargetOf(), WeightedMiss(members, b))(k)
  {
    hide Total, Members, Keys, Miss, WeightedMiss, GroupTotal, Copies;
    var group := Members(members, TargetOf(), k);
    assert times(k) > 0 && Members(more, TargetOf(), k) == Copies(group, times(k));
    SameKeys(more, members, TargetOf(), times);
    CopiesLength(group, times(k));
    KeysAre(members, TargetOf());
    assert Keys(members, TargetOf()) != [];
    TargetMiss(more, b, k);
    TargetMiss(members, b, k);
    TotalCopies(group, times(k), Miss(b));
    CopiesCancel(Total(group, Miss(b)), 1.0 / |Keys(members, TargetOf())| as real, times(k), |group|);
  }

  lemma SameClusterMiss(more: seq<Sample>, members: seq<Sample>, times: nat -> nat, b: nat)
    requires Replicates(more, members, TargetOf(), times)
    ensures ClusterMiss(more, b) == ClusterMiss(members, b)
  {
    hide Total, Members, Keys, WeightedMiss, GroupTotal, Replicates;
    var f, g := GroupTotal(more, TargetOf(), WeightedMiss(more, b)),
        GroupTotal(members, TargetOf(), WeightedMiss(members, b));
    var keys := Keys(members, TargetOf());
    GroupsSum(more, TargetOf(), WeightedMiss(more, b));
    GroupsSum(members, TargetOf(), WeightedMiss(members, b));
    SameKeys(more, members, TargetOf(), times);
    KeysAre(more, TargetOf());
    KeysAre(members, TargetOf());
    TotalElsewhere(Keys(more, TargetOf()), keys, f);
    forall i | 0 <= i < |keys|
      ensures f(keys[i]) == g(keys[i])
    {
      assert keys[i] in keys;
      SameTargetMiss(more, members, times, b, keys[i]);
    }
    TotalSame(keys, f, g);
  }

  // ---------- all clusters ----------

  lemma ClusterReplicates(more: seq<Sample>, samples: seq<Sample>, times: nat -> nat, c: nat)
    requires Replicates(more, samples, TargetOf(), times)
    ensures Replicates(Members(more, ClusterOf(), c), Members(samples, ClusterOf(), c), TargetOf(), times)
  {
    hide Members, Copies;
    forall k
      ensures times(k) > 0
      ensures Members(Members(more, ClusterOf(), c), TargetOf(), k)
           == Copies(Members(Members(samples, ClusterOf(), c), TargetOf(), k), times(k))
    {
      assert times(k) > 0 && Members(more, TargetOf(), k) == Copies(Members(samples, TargetOf(), k), times(k));
      MembersTwice(more, ClusterOf(), c, TargetOf(), k);
      MembersTwice(samples, ClusterOf(), c, TargetOf(), k);
      MembersCopies(Members(samples, TargetOf(), k), times(k), ClusterOf(), c);
    }
  }

  lemma SameClusters(more: seq<Sample>, samples: seq<Sample>, times: nat -> nat)
    requires Replicates(more, samples, TargetOf(), times)
    ensures forall c :: c in Keys(more, ClusterOf()) <==> c in Keys(samples, ClusterOf())
    ensures |Keys(more, ClusterOf())| == |Keys(samples, ClusterOf())|
  {
    hide Members, Keys, Replicates;
    KeysAre(more, ClusterOf());
    KeysAre(samples, ClusterOf());
    forall c
      ensures c in Keys(more, ClusterOf()) <==> c in Keys(samples, ClusterOf())
    {
      ClusterReplicates(more, samples, times, c);
      SameKeys(Members(more, ClusterOf(), c), Members(samples, ClusterOf(), c), TargetOf(), times);
    }
    SameLength(Keys(more, ClusterOf()), Keys(samples, ClusterOf()));
  }

  lemma SameGap(more: seq<Sample>, samples: seq<Sample>, times: nat -> nat, b: nat)
    requires AllValid(more) && AllValid(samples) && Replicates(more, samples, TargetOf(), times)
    ensures Gap(Entries(more, Keys(more, ClusterOf()), true))(b) ==
        Gap(Entries(samples, Keys(samples, ClusterOf()), true))(b)
  {
    hide Total, Members, Keys, Entries, ClusterMiss, Replicates, InBin;
    var order, keys := Keys(more, ClusterOf()), Keys(samples, ClusterOf());
    BinTotal(Entries(more, order, true), b);
    BinTotal(Entries(samples, keys, true), b);
    EntriesMiss(more, order, b);
    EntriesMiss(samples, keys, b);
    SameClusters(more, samples, times);
    KeysAre(more, ClusterOf());
    KeysAre(samples, ClusterOf());
    TotalElsewhere(order, keys, MissBy(more, b));
    forall i | 0 <= i < |keys|
      ensures MissBy(more, b)(keys[i]) == MissBy(samples, b)(keys[i])
    {
      ClusterReplicates(more, samples, times, keys[i]);
      SameClusterMiss(Members(more, ClusterOf(), keys[i]), Members(samples, ClusterOf(), keys[i]), times, b);
    }
    TotalSame(keys, MissBy(more, b), MissBy(samples, b));
  }

  /** A bin nothing fell into has no gap. */
  lemma EmptyBin(entries: seq<Entry>, b: nat)
    ensures b !in Keys(entries, BinOf()) ==> Gap(entries)(b) == 0.0
  {
    KeysAre(entries, BinOf());
  }

  /** The target-balanced calibration error is blind to how often each target was recommended: whatever the
      multiplicity of each target, and however its samples are spread over the list and over the clusters. */
  lemma ReplicationKeepsCalibration(more: seq<Sample>, samples: seq<Sample>, times: nat -> nat)
    requires AllValid(more) && AllValid(samples) && Replicates(more, samples, TargetOf(), times)
    ensures CalibrationMicros(more, true) == CalibrationMicros(samples, true)
  {
    hide Total, Members, Keys, Entries, Gap, Replicates, AllValid, Rounding.Nearest;
    SameKeys(more, samples, TargetOf(), times);
    if samples != [] {
      SameClusters(more, samples, times);
      var a, b := Entries(more, Keys(more, ClusterOf()), true), Entries(samples, Keys(samples, ClusterOf()), true);
      var bins := Keys(b, BinOf());
      KeysAre(a, BinOf());
      KeysAre(b, BinOf());
      forall k: nat
        ensures Gap(a)(k) == Gap(b)(k)
        ensures (k in Keys(a, BinOf())) != (k in bins) ==> Gap(a)(k) == 0.0
      {
        SameGap(more, samples, times, k);
        EmptyBin(a, k);
        EmptyBin(b, k);
      }
      TotalElsewhere(Keys(a, BinOf()), bins, Gap(a));
      TotalSame(bins, Gap(a), Gap(b));
      assert CalibrationValue(more, true) == CalibrationValue(samples, true);
    }
  }
}
