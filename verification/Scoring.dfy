/** Brier scores, nested means and the cluster interval. Probabilities and scores are integers in millionths. */
module Scoring {
  import opened Grouping
  import Rounding

  const ONE: int := 1_000_000

  datatype Outcome = Up | Neutral | Down

  datatype Probabilities = Probabilities(up: int, neutral: int, down: int)

  predicate Valid(p: Probabilities) {
    p.up >= 0 && p.neutral >= 0 && p.down >= 0 && p.up + p.neutral + p.down == ONE
  }

  function Square(x: int): int {
    x * x
  }

  /** The sum of squared errors, in units of 10^-12. */
  function SquaredError(p: Probabilities, o: Outcome): int {
    Square(p.up - if o.Up? then ONE else 0)
    + Square(p.neutral - if o.Neutral? then ONE else 0)
    + Square(p.down - if o.Down? then ONE else 0)
  }

  /** `_brier`: a third of it, rounded to millionths. */
  function Brier(p: Probabilities, o: Outcome): int {
    Rounding.HalfEven(SquaredError(p, o), 3 * ONE)
  }

  function Chance(p: Probabilities, o: Outcome): int {
    match o case Up => p.up case Neutral => p.neutral case Down => p.down
  }

  lemma Expand(x: int, y: int)
    ensures Square(x - y) == Square(x) - 2 * (x * y) + Square(y)
    ensures Square(x) >= 0
  {
  }

  /** The error of three non-negative parts that sum to the whole. */
  lemma ErrorBound(a: int, b: int, c: int)
    requires a >= 0 && b >= 0 && c >= 0 && a + b + c == ONE
    ensures 0 <= Square(a - ONE) + Square(b) + Square(c) <= 2 * Square(ONE)
    ensures Square(a - ONE) + Square(b) + Square(c) == 0 <==> a == ONE
  {
    var d := ONE - a;
    assert d == b + c;
    assert Square(a - ONE) == Square(d);
    assert Square(d) == Square(b) + Square(c) + 2 * (b * c);
    assert b * c >= 0;
    Expand(b, 0);
    Expand(c, 0);
    Rounding.Scale(d, ONE, d);
    Rounding.Scale(d, ONE, ONE);
    if Square(d) == 0 {
      assert d == 0;
    }
  }

  /** A Brier score lies between 0 and two thirds, up to its own rounding; only certainty in what happened scores an
      exact zero. */
  lemma BrierBounds(p: Probabilities, o: Outcome)
    requires Valid(p)
    ensures 0 <= Brier(p, o) <= 666667
    ensures SquaredError(p, o) == 0 <==> Chance(p, o) == ONE
  {
    hide Square;
    match o {
      case Up => ErrorBound(p.up, p.neutral, p.down);
      case Neutral => ErrorBound(p.neutral, p.up, p.down);
      case Down => ErrorBound(p.down, p.up, p.neutral);
    }
    ZeroSquares(p);
    assert Square(ONE) == 1_000_000_000_000 by { WholeSquare(); }
    Rounding.HalfEvenBound(SquaredError(p, o), 3 * ONE, 0);
    Rounding.HalfEvenBound(SquaredError(p, o), 3 * ONE, 666667);
  }

  lemma WholeSquare()
    ensures Square(ONE) == 1_000_000_000_000
  {
  }

  lemma ZeroSquares(p: Probabilities)
    ensures p.up - 0 == p.up && p.neutral - 0 == p.neutral && p.down - 0 == p.down
  {
  }

  /** What a forecast `p` scores on average when outcomes follow `q`, scaled by 10^18. */
  function Expected(q: Probabilities, p: Probabilities): int {
    q.up * SquaredError(p, Up) + q.neutral * SquaredError(p, Neutral) + q.down * SquaredError(p, Down)
  }

  /** The unrounded score is strictly proper: a forecaster's best report is its belief, and only that. The excess over
      the best score is exactly the squared distance between report and belief. */
  lemma BrierIsProper(q: Probabilities, p: Probabilities)
    requires Valid(q) && Valid(p)
    ensures Expected(q, p) ==
        Expected(q, q) + ONE * (Square(p.up - q.up) + Square(p.neutral - q.neutral) + Square(p.down - q.down))
    ensures Expected(q, q) <= Expected(q, p)
    ensures Expected(q, p) == Expected(q, q) <==> p == q
  {
    hide Square, SquaredError;
    ExpectedIs(q, p);
    ExpectedIs(q, q);
    Distance(p.up, q.up);
    Distance(p.neutral, q.neutral);
    Distance(p.down, q.down);
    var excess := Square(p.up - q.up) + Square(p.neutral - q.neutral) + Square(p.down - q.down);
    assert excess == 0 ==> p.up == q.up && p.neutral == q.neutral && p.down == q.down;
  }

  lemma Distance(a: int, b: int)
    ensures Square(a - b) == Square(a) - 2 * (b * a) + b * b
    ensures Square(a - b) >= 0 && (Square(a - b) == 0 <==> a == b)
    ensures Square(b) == b * b
  {
    var d := a - b;
    assert a == b + d;
    assert Square(d) == d * d;
    if d != 0 { NonZeroSquare(d); }
  }

  lemma NonZeroSquare(d: int)
    requires d != 0
    ensures Square(d) > 0
  {
    if d > 0 { Rounding.Scale(1, d, d); } else { Rounding.Scale(1, -d, -d); assert -d * -d == d * d; }
  }

  /** Averaging the error over the outcomes leaves `|p|^2 - 2 q.p + 1`, times the whole. */
  lemma ExpectedIs(q: Probabilities, p: Probabilities)
    requires Valid(q)
    ensures Expected(q, p) ==
              ONE * (Square(p.up) + Square(p.neutral) + Square(p.down) + Square(ONE)
                     - 2 * (q.up * p.up + q.neutral * p.neutral + q.down * p.down))
  {
    hide Square, SquaredError;
    var s := Square(p.up) + Square(p.neutral) + Square(p.down) + Square(ONE);
    ErrorIs(p, Up);
    ErrorIs(p, Neutral);
    ErrorIs(p, Down);
    Weighted(q.up, s, p.up);
    Weighted(q.neutral, s, p.neutral);
    Weighted(q.down, s, p.down);
    BeliefsSumToOne(q, s);
  }

  lemma BeliefsSumToOne(q: Probabilities, s: int)
    requires Valid(q)
    ensures q.up * s + q.neutral * s + q.down * s == ONE * s
  {
    assert (q.up + q.neutral + q.down) * s == q.up * s + q.neutral * s + q.down * s;
  }

  lemma ErrorIs(p: Probabilities, o: Outcome)
    ensures SquaredError(p, o) ==
              Square(p.up) + Square(p.neutral) + Square(p.down) + Square(ONE) - 2 * ONE * Chance(p, o)
  {
    Expand(Chance(p, o), ONE);
  }

  lemma Weighted(q: int, s: int, x: int)
    ensures q * (s - 2 * ONE * x) == q * s - 2 * ONE * (q * x)
  {
    assert q * (2 * ONE * x) == 2 * ONE * (q * x);
  }

  // ---------- means ----------

  function Sum(values: seq<int>): int {
    if values == [] then 0 else Sum(values[..|values| - 1]) + values[|values| - 1]
  }

  /** `_mean`, of a non-empty list. */
  function Mean(values: seq<int>): int
    requires values != []
  {
    Rounding.HalfEven(Sum(values), |values|)
  }

  /** Rounding never takes a mean out of the range of its values. */
  lemma MeanBounds(values: seq<int>, low: int, high: int)
    requires values != [] && forall k :: 0 <= k < |values| ==> low <= values[k] <= high
    ensures low <= Mean(values) <= high
  {
    SumBounds(values, low, high);
    Rounding.HalfEvenBound(Sum(values), |values|, low);
    Rounding.HalfEvenBound(Sum(values), |values|, high);
  }

  lemma {:induction false} SumBounds(values: seq<int>, low: int, high: int)
    requires forall k :: 0 <= k < |values| ==> low <= values[k] <= high
    ensures low * |values| <= Sum(values) <= high * |values|
  {
    if values != [] {
      var n := |values| - 1;
      SumBounds(values[..n], low, high);
      assert low * (n + 1) == low * n + low && high * (n + 1) == high * n + high;
    }
  }

  lemma {:induction false} SumAppend(a: seq<int>, b: seq<int>)
    ensures Sum(a + b) == Sum(a) + Sum(b)
  {
    if b == [] {
      assert a + b == a;
    } else {
      assert (a + b)[..|a + b| - 1] == a + b[..|b| - 1];
      SumAppend(a, b[..|b| - 1]);
    }
  }

  lemma {:induction false} CopiesSum(values: seq<int>, times: nat)
    ensures Sum(Copies(values, times)) == times * Sum(values)
  {
    if times > 0 {
      CopiesSum(values, times - 1);
      SumAppend(Copies(values, times - 1), values);
      assert times * Sum(values) == (times - 1) * Sum(values) + Sum(values);
    }
  }

  /** Replicating every sample of a target changes neither its mean nor anything computed from it. */
  lemma ReplicationInvariant(values: seq<int>, times: nat)
    requires values != [] && times > 0
    ensures Copies(values, times) != [] && Mean(Copies(values, times)) == Mean(values)
  {
    CopiesSum(values, times);
    CopiesLength(values, times);
    var n, s := |values|, Sum(values);
    Rounding.Scale(1, times, n);
    Reorder(s, times, n);
    hide Sum, Rounding.HalfEven;
    Rounding.HalfEvenMonotone(s, n, times * s, times * n);
    Rounding.HalfEvenMonotone(times * s, times * n, s, n);
  }

  lemma Reorder(s: int, times: int, n: int)
    ensures s * (times * n) == (times * s) * n
  {
    assert s * times == times * s;
    assert s * (times * n) == (s * times) * n;
  }

  /** Target means inside cluster means inside the overall mean. */
  function ClusterMeans(clusters: seq<seq<int>>): (means: seq<int>)
    requires forall k :: 0 <= k < |clusters| ==> clusters[k] != []
    ensures |means| == |clusters|
  {
    if clusters == [] then [] else ClusterMeans(clusters[..|clusters| - 1]) + [Mean(clusters[|clusters| - 1])]
  }

  lemma {:induction false} ClusterMeansBounds(clusters: seq<seq<int>>, low: int, high: int)
    requires forall k :: 0 <= k < |clusters| ==> clusters[k] != []
    requires forall k, j :: 0 <= k < |clusters| && 0 <= j < |clusters[k]| ==> low <= clusters[k][j] <= high
    ensures forall k :: 0 <= k < |clusters| ==> low <= ClusterMeans(clusters)[k] <= high
  {
    if clusters != [] {
      var n := |clusters| - 1;
      ClusterMeansBounds(clusters[..n], low, high);
      MeanBounds(clusters[n], low, high);
    }
  }

  // ---------- the interval ----------

  function Max(a: int, b: int): int {
    if b > a then b else a
  }

  function Min(a: int, b: int): int {
    if b < a then b else a
  }

  datatype Interval = Interval(low: int, high: int)

  /** `_cluster_interval` around a mean: the width is `width / (3 * m)` millionths; the support reaches from 0, or
      minus two thirds for differences, to two thirds. */
  function ClusterInterval(mean: int, width: nat, m: nat, differences: bool): Interval
    requires m > 0
  {
    var lowest := if differences then -2 * ONE * m else 0;
    Interval(
      Rounding.HalfEven(Max(lowest, mean * (3 * m) - width), 3 * m),
      Rounding.HalfEven(Min(2 * ONE * m, mean * (3 * m) + width), 3 * m))
  }

  /** The interval of cluster scores in the rounded support contains their mean, and stays in that support. */
  lemma IntervalContainsMean(clusters: seq<seq<int>>, width: nat, m: nat, differences: bool)
    requires m > 0 && clusters != []
    requires forall k :: 0 <= k < |clusters| ==> clusters[k] != []
    requires forall k, j :: 0 <= k < |clusters| && 0 <= j < |clusters[k]| ==>
               (if differences then -666667 else 0) <= clusters[k][j] <= 666667
    ensures var mean := Mean(ClusterMeans(clusters));
            var i := ClusterInterval(mean, width, m, differences);
            (if differences then -666667 else 0) <= i.low <= mean <= i.high <= 666667
  {
    hide ClusterMeans, Mean;
    var floor := if differences then -666667 else 0;
    ClusterMeansBounds(clusters, floor, 666667);
    MeanBounds(ClusterMeans(clusters), floor, 666667);
    IntervalAround(Mean(ClusterMeans(clusters)), width, m, differences);
  }

  lemma IntervalAround(mean: int, width: nat, m: nat, differences: bool)
    requires m > 0 && (if differences then -666667 else 0) <= mean <= 666667
    ensures var i := ClusterInterval(mean, width, m, differences);
            (if differences then -666667 else 0) <= i.low <= mean <= i.high <= 666667
  {
    LowSide(mean, mean * (3 * m), width, m, differences);
    HighSide(mean, mean * (3 * m), width, m);
  }

  lemma LowSide(mean: int, scaled: int, width: nat, m: nat, differences: bool)
    requires m > 0 && (if differences then -666667 else 0) <= mean && scaled == mean * (3 * m)
    ensures var lowest := if differences then -2 * ONE * m else 0;
            (if differences then -666667 else 0) <= Rounding.HalfEven(Max(lowest, scaled - width), 3 * m) <= mean
  {
    hide Rounding.HalfEven;
    var lowest := if differences then -2 * ONE * m else 0;
    var low := Max(lowest, scaled - width);
    Rounding.HalfEvenBound(low, 3 * m, if differences then -666667 else 0);
    if scaled < low {
      Clipped(mean, m, lowest);
    } else {
      Rounding.HalfEvenBound(low, 3 * m, mean);
    }
  }

  lemma HighSide(mean: int, scaled: int, width: nat, m: nat)
    requires m > 0 && mean <= 666667 && scaled == mean * (3 * m)
    ensures mean <= Rounding.HalfEven(Min(2 * ONE * m, scaled + width), 3 * m) <= 666667
  {
    hide Rounding.HalfEven;
    var high := Min(2 * ONE * m, scaled + width);
    Rounding.HalfEvenBound(high, 3 * m, 666667);
    if high < scaled {
      ClippedAbove(mean, m);
    } else {
      Rounding.HalfEvenBound(high, 3 * m, mean);
    }
  }

  lemma Clipped(mean: int, m: nat, lowest: int)
    requires m > 0 && -666667 <= mean && ((lowest == 0 && 0 <= mean) || lowest == -2 * ONE * m)
    requires mean * (3 * m) < lowest
    ensures Rounding.HalfEven(lowest, 3 * m) <= mean
  {
    if mean >= -666666 {
      Rounding.Scale(-666666, mean, 3 * m);
    } else {
      Rounding.HalfEvenIff(lowest, 3 * m, -666667);
    }
  }

  lemma ClippedAbove(mean: int, m: nat)
    requires m > 0 && mean <= 666667 && 2 * ONE * m < mean * (3 * m)
    ensures mean <= Rounding.HalfEven(2 * ONE * m, 3 * m)
  {
    if mean <= 666666 {
      Rounding.Scale(mean, 666666, 3 * m);
    } else {
      Rounding.HalfEvenIff(2 * ONE * m, 3 * m, 666667);
    }
  }
}
