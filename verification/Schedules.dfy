/** Whether two recurring jobs can ever fall due at the same instant. */
module Schedules {

  const MICRO: int := 1_000_000
  const INTERVAL: nat := 3600

  function Gcd(a: nat, b: nat): (g: nat)
    ensures g == 0 <==> a == 0 && b == 0
    decreases b
  {
    if b == 0 then a else Gcd(b, a % b)
  }

  /** Two jobs due at `a`, `a + p`, ... and `b`, `b + q`, ... fall due together at or behind `t`. */
  ghost predicate MeetBehind(a: int, p: nat, b: int, q: nat, t: int) {
    exists i: nat, j: nat :: a + i * p == b + j * q && t <= a + i * p
  }

  ghost predicate Meet(a: int, p: nat, b: int, q: nat) {
    exists i: nat, j: nat :: a + i * p == b + j * q
  }

  // ---------- arithmetic ----------

  ghost predicate Divides(d: int, n: int) {
    exists k :: n == k * d
  }

  lemma DividesSum(d: int, m: int, n: int, x: int, y: int)
    requires Divides(d, m) && Divides(d, n)
    ensures Divides(d, x * m + y * n)
  {
    var k :| m == k * d;
    var l :| n == l * d;
    assert x * m + y * n == (x * k + y * l) * d by {
      assert x * (k * d) == (x * k) * d;
      assert y * (l * d) == (y * l) * d;
    }
  }

  lemma {:induction false} GcdDivides(a: nat, b: nat)
    ensures Divides(Gcd(a, b), a) && Divides(Gcd(a, b), b)
    decreases b
  {
    if b == 0 {
      assert a == 1 * a && 0 == 0 * a;
    } else {
      GcdDivides(b, a % b);
      var q := a / b;
      assert a == q * b + 1 * (a % b);
      DividesSum(Gcd(a, b), b, a % b, q, 1);
    }
  }

  /** Bezout: the greatest common divisor is a combination of both numbers. */
  lemma {:induction false} Bezout(a: nat, b: nat) returns (x: int, y: int)
    ensures x * a + y * b == Gcd(a, b)
    decreases b
  {
    if b == 0 {
      x, y := 1, 0;
    } else {
      var u, v := Bezout(b, a % b);
      x, y := v, u - v * (a / b);
      BezoutStep(a, b, a / b, a % b, u, v);
    }
  }

  lemma BezoutStep(a: int, b: int, q: int, r: int, u: int, v: int)
    requires a == q * b + r
    ensures v * a + (u - v * q) * b == u * b + v * r
  {
    assert v * (q * b + r) == v * q * b + v * r;
    assert (u - v * q) * b == u * b - v * q * b;
  }

  lemma {:induction false} GcdScale(a: nat, b: nat, c: nat)
    requires c > 0
    ensures Gcd(a * c, b * c) == Gcd(a, b) * c
    decreases b
  {
    if b == 0 {
      assert b * c == 0;
    } else {
      GcdScale(b, a % b, c);
      ScaledRemainder(a, b, c);
    }
  }

  lemma ScaledRemainder(a: nat, b: nat, c: nat)
    requires b > 0 && c > 0
    ensures b * c > 0 && (a * c) % (b * c) == (a % b) * c
  {
    var q, r := a / b, a % b;
    Product(b, c);
    Product(b - r, c);
    assert (b - r) * c == b * c - r * c;
    assert a == q * b + r;
    assert (q * b + r) * c == q * (b * c) + r * c;
    Remainder(a * c, q, b * c, r * c);
  }

  lemma Product(x: nat, y: nat)
    ensures x * y >= 0 && (x > 0 && y > 0 ==> x * y > 0)
  {
  }

  lemma Remainder(n: int, q: int, d: nat, r: int)
    requires d > 0 && n == q * d + r && 0 <= r < d
    ensures n % d == r && n / d == q
  {
    var p, s := n / d, n % d;
    assert n == p * d + s;
    assert (q - p) * d == s - r by { assert (q - p) * d == q * d - p * d; }
    if q - p >= 1 { Order(1, q - p, d); } else if q - p <= -1 { Order(q - p, -1, d); }
  }

  lemma Order(a: int, b: int, d: nat)
    requires a <= b
    ensures a * d <= b * d
  {
  }

  lemma DividesIff(n: int, d: nat)
    requires d > 0
    ensures n % d == 0 <==> Divides(d, n)
  {
    if n % d == 0 {
      assert n == n / d * d;
    }
    if Divides(d, n) {
      var k :| n == k * d;
      Remainder(n, k, d, 0);
    }
  }

  // ---------- the collision test ----------

  /** `recurring_schedules_collide`: deadlines in microseconds, intervals in seconds. */
  predicate Collide(a: int, p: nat, b: int, q: nat)
    requires p > 0 && q > 0
  {
    (a - b) % (Gcd(p, q) * MICRO) == 0
  }

  /** The live-schedule form: everything in microseconds. */
  predicate CollideMicro(a: int, p: nat, b: int, q: nat)
    requires p > 0 && q > 0
  {
    (a - b) % Gcd(p, q) == 0
  }

  /** A common instant can be pushed behind any moment: a phase difference divisible by the gcd makes the two jobs
      meet again and again. */
  lemma Pushed(a: int, p: nat, b: int, q: nat, t: int)
    requires p > 0 && q > 0 && Divides(Gcd(p, q), a - b)
    ensures MeetBehind(a, p, b, q, t)
  {
    var k :| a - b == k * Gcd(p, q);
    var x, y := Bezout(p, q);
    // a - b == k*x*p + k*y*q, so a - k*x*p == b + k*y*q; then add s*p*q on both sides.
    var m, n := k * x, k * y;
    var s := Bound(m) + Bound(n) + Bound(t - a);
    Combine(k, x, y, p, q);
    Balance(m, n, p, q, s);
    AtLeast(s, q);
    AtLeast(s, p);
    var i, j := s * q - m, s * p + n;
    AtLeast(i, p);
    assert a + i * p == b + j * q && t <= a + i * p;
  }

  lemma Combine(k: int, x: int, y: int, p: int, q: int)
    ensures k * (x * p + y * q) == (k * x) * p + (k * y) * q
  {
    assert k * (x * p) == (k * x) * p && k * (y * q) == (k * y) * q;
  }

  lemma Balance(m: int, n: int, p: int, q: int, s: int)
    ensures (s * q - m) * p + m * p + n * q == (s * p + n) * q
  {
    assert (s * q - m) * p == s * q * p - m * p;
    assert (s * p + n) * q == s * p * q + n * q;
    assert s * q * p == s * p * q by { Commute(s, p, q); }
  }

  lemma Commute(s: int, p: int, q: int)
    ensures s * q * p == s * p * q
  {
    assert s * q * p == s * (q * p) && s * p * q == s * (p * q);
  }

  lemma AtLeast(s: nat, p: nat)
    requires p > 0
    ensures s <= s * p
  {
    Order(1, p, s);
  }

  function Bound(n: int): nat {
    if n < 0 then -n else n
  }

  lemma MeetingDivides(a: int, p: nat, b: int, q: nat)
    requires p > 0 && q > 0 && Meet(a, p, b, q)
    ensures Divides(Gcd(p, q), a - b)
  {
    var i: nat, j: nat :| a + i * p == b + j * q;
    GcdDivides(p, q);
    Difference(a, p, b, q, i, j, Gcd(p, q));
  }

  lemma Difference(a: int, p: int, b: int, q: int, i: int, j: int, d: int)
    requires a + i * p == b + j * q && Divides(d, p) && Divides(d, q)
    ensures Divides(d, a - b)
  {
    DividesSum(d, p, q, -i, j);
    assert -i * p == -(i * p);
  }

  /** The microsecond test is exact: it fires if and only if the two jobs ever fall due together, and then they do so
      behind every moment. */
  lemma CollideMicroIff(a: int, p: nat, b: int, q: nat)
    requires p > 0 && q > 0
    ensures CollideMicro(a, p, b, q) <==> Meet(a, p, b, q)
    ensures CollideMicro(a, p, b, q) <==> forall t :: MeetBehind(a, p, b, q, t)
  {
    DividesIff(a - b, Gcd(p, q));
    if CollideMicro(a, p, b, q) {
      forall t
        ensures MeetBehind(a, p, b, q, t)
      {
        Pushed(a, p, b, q, t);
      }
      assert MeetBehind(a, p, b, q, 0);
    }
    if Meet(a, p, b, q) {
      MeetingDivides(a, p, b, q);
    }
    if forall t :: MeetBehind(a, p, b, q, t) {
      assert MeetBehind(a, p, b, q, 0);
    }
  }

  /** The two forms of the test agree, so the second one is exact as well. */
  lemma CollideIff(a: int, p: nat, b: int, q: nat)
    requires p > 0 && q > 0
    ensures p * MICRO > 0 && q * MICRO > 0
    ensures Collide(a, p, b, q) <==> CollideMicro(a, p * MICRO, b, q * MICRO)
    ensures Collide(a, p, b, q) <==> Meet(a, p * MICRO, b, q * MICRO)
  {
    GcdScale(p, q, MICRO);
    CollideMicroIff(a, p * MICRO, b, q * MICRO);
  }

  // ---------- deadlines ----------

  /** A time difference as Python normalizes it. */
  datatype Delta = Delta(days: int, seconds: nat, micros: nat)

  predicate Normal(d: Delta) {
    d.seconds < 86400 && d.micros < MICRO
  }

  /** `deadline_microseconds` */
  function Microseconds(d: Delta): int {
    (d.days * 86400 + d.seconds) * MICRO + d.micros
  }

  predicate Before(d: Delta, e: Delta) {
    d.days < e.days || (d.days == e.days && (d.seconds < e.seconds || (d.seconds == e.seconds && d.micros < e.micros)))
  }

  /** The conversion loses nothing: it keeps order, so distinct instants stay distinct. */
  lemma MicrosecondsLossless(d: Delta, e: Delta)
    requires Normal(d) && Normal(e)
    ensures Before(d, e) <==> Microseconds(d) < Microseconds(e)
    ensures Microseconds(d) == Microseconds(e) <==> d == e
  {
  }

  // ---------- the seeded jobs ----------

  /** First deadline of the `index`-th reconciliation job when seeded at `now`. */
  function SeedDeadline(now: int, index: nat): int {
    now - now % (3600 * MICRO) + (3600 + 3001 + 60 * index) * MICRO
  }

  /** Whatever hour each job was seeded in and however often each has run since, no two of them ever collide. */
  lemma SeededJobsNeverMeet(now1: int, i: nat, runs1: nat, now2: int, j: nat, runs2: nat)
    requires i < 4 && j < 4 && i != j
    ensures !Collide(SeedDeadline(now1, i) + runs1 * INTERVAL * MICRO, INTERVAL,
                     SeedDeadline(now2, j) + runs2 * INTERVAL * MICRO, INTERVAL)
  {
    assert Gcd(INTERVAL, INTERVAL) == INTERVAL;
    var h1, h2 := now1 / (3600 * MICRO), now2 / (3600 * MICRO);
    var n := h1 - h2 + runs1 - runs2;
    assert now1 - now1 % (3600 * MICRO) == h1 * (3600 * MICRO);
    assert now2 - now2 % (3600 * MICRO) == h2 * (3600 * MICRO);
    var d := SeedDeadline(now1, i) + runs1 * INTERVAL * MICRO - (SeedDeadline(now2, j) + runs2 * INTERVAL * MICRO);
    assert d == n * (3600 * MICRO) + 60 * (i - j) * MICRO;
    if i > j {
      Remainder(d, n, 3600 * MICRO, 60 * (i - j) * MICRO);
    } else {
      Remainder(d, n - 1, 3600 * MICRO, 60 * (i - j) * MICRO + 3600 * MICRO);
    }
  }

  // ---------- the integrity report ----------

  /** An enabled job: `reconciles` marks the jobs of this module, `valid` the verdict of `valid_recurrence`. */
  datatype Job = Job(id: nat, reconciles: bool, valid: bool, deadline: int, interval: nat)

  function Lesser(a: nat, b: nat): nat {
    if b < a then b else a
  }

  /** Jobs `i` and `j` are compared, and really do fall due together some time. */
  ghost predicate Clash(jobs: seq<Job>, i: nat, j: nat) {
    && i < j < |jobs| && jobs[i].valid && jobs[j].valid
    && (jobs[i].reconciles || jobs[j].reconciles)
    && Meet(jobs[i].deadline, jobs[i].interval * MICRO, jobs[j].deadline, jobs[j].interval * MICRO)
  }

  ghost predicate Reports(jobs: seq<Job>, pair: (nat, nat), id: nat) {
    Clash(jobs, pair.0, pair.1) && id == Lesser(jobs[pair.0].id, jobs[pair.1].id)
  }

  /** Some pair explains the reported id. */
  ghost predicate Explained(jobs: seq<Job>, id: nat) {
    exists pair: (nat, nat) :: Reports(jobs, pair, id)
  }

  /** The pairwise loop of `schedule_errors`: it reports an id for exactly the pairs that will collide some time. */
  method CollisionErrors(jobs: seq<Job>) returns (errors: seq<nat>)
    requires forall k :: 0 <= k < |jobs| && jobs[k].valid ==> jobs[k].interval > 0
    ensures forall id :: id in errors <==> Explained(jobs, id)
    ensures errors == [] <==> forall i: nat, j: nat :: !Clash(jobs, i, j)
  {
    errors := [];
    ghost var found: seq<(nat, nat)> := [];
    for i := 0 to |jobs|
      invariant |found| == |errors|
      invariant forall k :: 0 <= k < |found| ==> Reports(jobs, found[k], errors[k])
      invariant forall x: nat, y: nat :: Clash(jobs, x, y) && x < i ==> (x, y) in found
      invariant forall k :: 0 <= k < |found| ==> found[k].0 < i
    {
      for j := i + 1 to |jobs|
        invariant |found| == |errors|
        invariant forall k :: 0 <= k < |found| ==> Reports(jobs, found[k], errors[k])
        invariant forall x: nat, y: nat :: Clash(jobs, x, y) && (x < i || (x == i && y < j)) ==> (x, y) in found
        invariant forall k :: 0 <= k < |found| ==> found[k].0 <= i
      {
        var first, second := jobs[i], jobs[j];
        if first.valid && second.valid && (first.reconciles || second.reconciles) {
          CollideIff(first.deadline, first.interval, second.deadline, second.interval);
          if Collide(first.deadline, first.interval, second.deadline, second.interval) {
            errors := errors + [Lesser(first.id, second.id)];
            found := found + [(i, j)];
          }
        }
      }
    }
    forall id
      ensures id in errors <==> Explained(jobs, id)
    {
      ReportsExplain(jobs, found, errors, id);
    }
    NoReports(jobs, found, errors);
  }

  lemma ReportsExplain(jobs: seq<Job>, found: seq<(nat, nat)>, errors: seq<nat>, id: nat)
    requires |found| == |errors| && forall k :: 0 <= k < |found| ==> Reports(jobs, found[k], errors[k])
    requires forall x: nat, y: nat :: Clash(jobs, x, y) ==> (x, y) in found
    ensures id in errors <==> Explained(jobs, id)
  {
    if id in errors {
      var k :| 0 <= k < |errors| && errors[k] == id;
      assert Reports(jobs, found[k], id);
    }
    if Explained(jobs, id) {
      var pair :| Reports(jobs, pair, id);
      assert (pair.0, pair.1) in found;
      var k :| 0 <= k < |found| && found[k] == pair;
      assert errors[k] == id;
    }
  }

  lemma NoReports(jobs: seq<Job>, found: seq<(nat, nat)>, errors: seq<nat>)
    requires |found| == |errors| && forall k :: 0 <= k < |found| ==> Reports(jobs, found[k], errors[k])
    requires forall x: nat, y: nat :: Clash(jobs, x, y) ==> (x, y) in found
    ensures errors == [] <==> forall i: nat, j: nat :: !Clash(jobs, i, j)
  {
    hide Clash;
    if errors != [] {
      assert Reports(jobs, found[0], errors[0]);
    }
  }
}
