/** When a list of hourly candles proves that no market hour of a window is missing. */
module Coverage {
  import opened MarketCalendar

  /** `_has_coverage` on candle hours in database order; `manifest` says that one succeeded ingestion run spans
      the window. `generated` is the hour the recommendation was generated in. */
  predicate HasCoverage(generated: int, through: int, hours: seq<int>, manifest: bool) {
    && manifest
    && hours != []
    && hours[0] == NextMarketHour(generated)
    && through <= NextMarketHour(hours[|hours| - 1])
    && Gapless(hours)
  }

  predicate Gapless(hours: seq<int>) {
    forall k :: 0 < k < |hours| ==> hours[k] - hours[k - 1] == 1 || IsWeekendGap(hours[k - 1], hours[k])
  }

  /** In order, and no hour twice. */
  predicate Increasing(hours: seq<int>) {
    forall i, j :: 0 <= i < j < |hours| ==> hours[i] < hours[j]
  }

  ghost predicate Complete(hours: seq<int>, from: int, through: int) {
    forall h :: from <= h < through && MarketIsOpen(h) ==> h in hours
  }

  /** The first Friday close after `h`. */
  function CloseAfter(h: int): int {
    h + 1 + (FRIDAY_CLOSE - (h + 1)) % WEEK
  }

  lemma CloseAfterIs(h: int)
    ensures h < CloseAfter(h) <= h + WEEK && CloseAfter(h) % WEEK == FRIDAY_CLOSE
    ensures forall k :: h < k < CloseAfter(h) ==> k % WEEK != FRIDAY_CLOSE
  {
    var l := h + 1;
    var d := (FRIDAY_CLOSE - l) % WEEK;
    var q := (FRIDAY_CLOSE - l) / WEEK;
    assert FRIDAY_CLOSE - l == q * WEEK + d;
    assert l + d == FRIDAY_CLOSE - q * WEEK;
    AddWeeks(FRIDAY_CLOSE, -q);
    forall k | h < k < l + d
      ensures k % WEEK != FRIDAY_CLOSE
    {
      var e := k % WEEK;
      var p := k / WEEK;
      assert k == p * WEEK + e;
    }
  }

  lemma AddWeeks(h: int, n: int)
    ensures (h + n * WEEK) % WEEK == h % WEEK
  {
  }

  /** A weekend gap between increasing hours spans a whole number of weeks plus the regular closure. */
  lemma GapLength(p: int, q: int) returns (n: nat)
    requires IsWeekendGap(p, q) && p < q
    ensures q == p + 49 + n * WEEK
  {
    WeekendGapHours(p, q);
    var a, b := (p + 1) / WEEK, q / WEEK;
    assert p + 1 == a * WEEK + FRIDAY_CLOSE && q == b * WEEK + SUNDAY_OPEN;
    assert b - a >= 0;
    n := b - a;
  }

  lemma ClosedBetween(p: int, h: int)
    requires (p + 1) % WEEK == FRIDAY_CLOSE && p < h < p + 49
    ensures !MarketIsOpen(h)
  {
    if p + 1 < h { Shift(p + 1, h - (p + 1)); }
    WeekHour(h);
  }

  /** Short of the second weekend, a gapless list misses nothing it passes. */
  lemma {:induction false} GaplessIsComplete(hours: seq<int>, limit: int)
    requires hours != [] && Gapless(hours) && Increasing(hours)
    requires forall k :: 0 <= k < |hours| ==> hours[k] < limit
    requires limit <= CloseAfter(hours[0]) + 216
    ensures Complete(hours, hours[0], hours[|hours| - 1] + 1)
  {
    var n := |hours|;
    if n > 1 {
      var init, p, q := hours[..n - 1], hours[n - 2], hours[n - 1];
      GaplessIsComplete(init, limit);
      forall h | hours[0] <= h < q + 1 && MarketIsOpen(h)
        ensures h in hours
      {
        if h <= p {
          assert h in init;
        } else if h < q {
          WeekendGapHours(p, q);
          CloseAfterIs(hours[0]);
          assert hours[0] <= p;
          assert CloseAfter(hours[0]) <= p + 1;
          var weeks := GapLength(p, q);
          assert weeks == 0;
          ClosedBetween(p, h);
        }
      }
    }
  }

  /** Coverage of a window that ends before the second weekend after it is real coverage. */
  lemma ShortWindowIsComplete(generated: int, through: int, hours: seq<int>)
    requires HasCoverage(generated, through, hours, true) && Increasing(hours)
    requires forall k :: 0 <= k < |hours| ==> hours[k] < through
    requires through <= CloseAfter(NextMarketHour(generated)) + 216
    ensures Complete(hours, NextMarketHour(generated), through)
  {
    GaplessIsComplete(hours, through);
    NextIsLeastOpen(hours[|hours| - 1]);
  }

  /** Coverage can only be lost by asking for more: it is antitone in `through`. */
  lemma CoverageAntitone(generated: int, less: int, more: int, hours: seq<int>, manifestLess: bool, manifestMore: bool)
    requires less <= more && (manifestMore ==> manifestLess)
    requires HasCoverage(generated, more, hours, manifestMore)
    ensures HasCoverage(generated, less, hours, manifestLess)
  {
  }

  // ---------- the registered hours of a window ----------

  /** The registered hourly calendar from an open hour up to `end`. */
  function OpenHours(start: int, end: int): seq<int>
    decreases end - start
  {
    if end <= start then [] else
      assert start < RegisteredSuccessor(start);
      [start] + OpenHours(RegisteredSuccessor(start), end)
  }

  lemma {:induction false} OpenHoursAre(start: int, end: int)
    requires MarketIsOpen(start)
    ensures Increasing(OpenHours(start, end)) && Gapless(OpenHours(start, end))
    ensures forall h :: h in OpenHours(start, end) <==> start <= h < end && MarketIsOpen(h)
    ensures start < end ==> OpenHours(start, end)[0] == start
    decreases end - start
  {
    hide MarketIsOpen, IsWeekendGap, RegisteredSuccessor, NextMarketHour;
    if start < end {
      var next := RegisteredSuccessor(start);
      SuccessorIsNext(start);
      NextIsLeastOpen(start);
      SuccessorSteps(start);
      OpenHoursAre(next, end);
      var rest := OpenHours(next, end);
      assert OpenHours(start, end) == [start] + rest;
      forall k | 0 <= k < |rest|
        ensures start < rest[k]
      {
        assert rest[k] in rest;
      }
      FrontIncreasing(start, rest);
      FrontGapless(start, rest);
      forall h
        ensures h in [start] + rest <==> start <= h < end && MarketIsOpen(h)
      {
        assert h in [start] + rest <==> h == start || h in rest;
      }
    }
  }

  lemma FrontIncreasing(start: int, rest: seq<int>)
    requires Increasing(rest) && forall k :: 0 <= k < |rest| ==> start < rest[k]
    ensures Increasing([start] + rest)
  {
  }

  lemma FrontGapless(start: int, rest: seq<int>)
    requires Gapless(rest) && (rest != [] ==> rest[0] == start + 1 || IsWeekendGap(start, rest[0]))
    ensures Gapless([start] + rest)
  {
    hide IsWeekendGap;
    var all := [start] + rest;
    forall k | 0 < k < |all|
      ensures all[k] - all[k - 1] == 1 || IsWeekendGap(all[k - 1], all[k])
    {
      if k > 1 { assert all[k] == rest[k - 1] && all[k - 1] == rest[k - 2]; }
    }
  }

  /** One registered step is an hour or exactly the weekend closure. */
  lemma SuccessorSteps(h: int)
    requires MarketIsOpen(h)
    ensures RegisteredSuccessor(h) == h + 1 || IsWeekendGap(h, RegisteredSuccessor(h))
  {
    var l := h + 1;
    WeekHour(l);
    if l % WEEK == FRIDAY_CLOSE {
      Shift(l, 48);
      WeekendGapHours(h, l + 48);
    }
  }

  lemma FirstIsElement(b: seq<int>)
    ensures b == [] || exists h :: h in b
  {
    if b != [] {
      var h := b[0];
      assert h in b;
    }
  }

  /** Two increasing lists with the same elements are the same list. */
  lemma {:induction false} SameElements(a: seq<int>, b: seq<int>)
    requires Increasing(a) && Increasing(b) && forall h :: h in a <==> h in b
    ensures a == b
  {
    if a == [] {
      FirstIsElement(b);
    } else {
      assert a[0] in a && b != [];
      assert b[0] in b;
      var i :| 0 <= i < |a| && a[i] == b[0];
      var j :| 0 <= j < |b| && b[j] == a[0];
      assert a[0] == b[0];
      forall h
        ensures h in a[1..] <==> h in b[1..]
      {
        InTail(a, h);
        InTail(b, h);
      }
      SameElements(a[1..], b[1..]);
      assert a == [a[0]] + a[1..] && b == [b[0]] + b[1..];
    }
  }

  lemma InTail(a: seq<int>, h: int)
    requires a != [] && Increasing(a)
    ensures h in a[1..] <==> h in a && h != a[0]
  {
    if h in a[1..] {
      var k :| 0 <= k < |a[1..]| && a[1..][k] == h;
      assert a[k + 1] == h;
    }
    if h in a && h != a[0] {
      var k :| 0 <= k < |a| && a[k] == h;
      assert a[1..][k - 1] == h;
    }
  }

  /** A covered list of candles of open hours is, hour for hour, the registered calendar of its window. */
  lemma CoveredIsRegistered(generated: int, through: int, hours: seq<int>)
    requires HasCoverage(generated, through, hours, true) && Increasing(hours)
    requires forall k :: 0 <= k < |hours| ==> hours[k] < through && MarketIsOpen(hours[k])
    requires through <= CloseAfter(NextMarketHour(generated)) + 216
    ensures hours == OpenHours(NextMarketHour(generated), through)
  {
    var first := NextMarketHour(generated);
    NextIsLeastOpen(generated);
    OpenHoursAre(first, through);
    ShortWindowIsComplete(generated, through, hours);
    forall h
      ensures h in hours <==> h in OpenHours(first, through)
    {
      if h in hours {
        var k :| 0 <= k < |hours| && hours[k] == h;
        assert hours[0] <= hours[k];
      }
    }
    SameElements(hours, OpenHours(first, through));
  }

  // ---------- exactly when complete data is accepted ----------

  predicate NonDecreasing(hours: seq<int>) {
    forall i, j :: 0 <= i < j < |hours| ==> hours[i] <= hours[j]
  }

  /** No step of a gapless list stays in its hour. */
  lemma {:induction false} GaplessIncreases(hours: seq<int>)
    requires NonDecreasing(hours) && Gapless(hours)
    ensures Increasing(hours)
  {
    if |hours| > 1 {
      var n := |hours| - 1;
      GaplessIncreases(hours[..n]);
      StepIncreases(hours, n);
      LastIncreases(hours, n);
    }
  }

  lemma StepIncreases(hours: seq<int>, k: nat)
    requires NonDecreasing(hours) && Gapless(hours) && 0 < k < |hours|
    ensures hours[k - 1] < hours[k]
  {
    hide IsWeekendGap;
    WeekendGapHours(hours[k - 1], hours[k]);
  }

  lemma LastIncreases(hours: seq<int>, n: nat)
    requires 0 < n == |hours| - 1 && Increasing(hours[..n]) && hours[n - 1] < hours[n]
    ensures Increasing(hours)
  {
    forall i, j | 0 <= i < j < |hours|
      ensures hours[i] < hours[j]
    {
      if j < n {
        assert hours[..n][i] < hours[..n][j];
      } else if i < n - 1 {
        assert hours[..n][i] < hours[..n][n - 1];
      }
    }
  }

  /** The closed hours of a weekend are there from the Friday close to the Sunday open, or not at all. */
  predicate WholeClosures(hours: seq<int>) {
    forall k :: 0 <= k < |hours| && !MarketIsOpen(hours[k]) ==> hours[k] - 1 in hours && hours[k] + 1 in hours
  }

  lemma NothingBetween(hours: seq<int>, k: nat, h: int)
    requires Increasing(hours) && 0 < k < |hours|
    ensures h in hours ==> h <= hours[k - 1] || hours[k] <= h
  {
  }

  lemma StepBounds(hours: seq<int>, through: int, k: nat)
    requires Increasing(hours) && 0 < k < |hours| && hours[k] < through
    requires Complete(hours, hours[0], through) && WholeClosures(hours)
    ensures var p, q := hours[k - 1], hours[k];
            && p < q && q <= (if MarketIsOpen(p) then NextMarketHour(p) else p + 1)
            && (MarketIsOpen(q) || q - 1 <= p)
  {
    hide MarketIsOpen, NextMarketHour;
    var n := NextMarketHour(hours[k - 1]);
    NextIsLeastOpen(hours[k - 1]);
    NothingBetween(hours, k, hours[k - 1] + 1);
    NothingBetween(hours, k, n);
    NothingBetween(hours, k, hours[k] - 1);
    assert hours[0] <= hours[k - 1] < n;
    assert n < through ==> n in hours;
  }

  lemma StepFits(hours: seq<int>, through: int, k: nat)
    requires Increasing(hours) && 0 < k < |hours| && hours[k] < through
    requires Complete(hours, hours[0], through) && WholeClosures(hours)
    ensures hours[k] - hours[k - 1] == 1 || IsWeekendGap(hours[k - 1], hours[k])
  {
    hide *;
    StepBounds(hours, through, k);
    var p := hours[k - 1];
    NextIsLeastOpen(p);
    if MarketIsOpen(p) {
      SuccessorIsNext(p);
      SuccessorSteps(p);
    }
  }

  lemma ClosureIsWhole(hours: seq<int>, through: int, k: nat)
    requires Increasing(hours) && Gapless(hours) && k < |hours| && MarketIsOpen(hours[0]) && MarketIsOpen(through - 1)
    requires through - 1 in hours && hours[k] < through
    ensures !MarketIsOpen(hours[k]) ==> hours[k] - 1 in hours && hours[k] + 1 in hours
  {
    hide MarketIsOpen, IsWeekendGap;
    var h := hours[k];
    if !MarketIsOpen(h) {
      LastIsGreatest(hours, through - 1);
      assert h < through - 1;
      assert 0 < k < |hours| - 1;
      WeekHour(h);
      NextWeekHour(h);
      WeekendGapHours(hours[k - 1], h);
      WeekendGapHours(h, hours[k + 1]);
      assert hours[k - 1] == h - 1 && hours[k + 1] == h + 1;
    }
  }

  /** Data that holds every open hour of a window is accepted exactly when the window has an open hour, no candle lies
      in front of it, no hour appears twice, and no weekend is filled in part. */
  lemma CompleteIsCoveredIff(generated: int, through: int, hours: seq<int>)
    requires NonDecreasing(hours) && MarketIsOpen(through - 1)
    requires forall k :: 0 <= k < |hours| ==> hours[k] < through
    requires Complete(hours, NextMarketHour(generated), through)
    ensures HasCoverage(generated, through, hours, true) <==>
              && NextMarketHour(generated) < through
              && (forall k :: 0 <= k < |hours| ==> NextMarketHour(generated) <= hours[k])
              && Increasing(hours) && WholeClosures(hours)
  {
    hide MarketIsOpen, NextMarketHour, IsWeekendGap;
    var first := NextMarketHour(generated);
    NextIsLeastOpen(generated);
    if HasCoverage(generated, through, hours, true) {
      GaplessIncreases(hours);
      assert through - 1 in hours;
      forall k | 0 <= k < |hours| && !MarketIsOpen(hours[k])
        ensures hours[k] - 1 in hours && hours[k] + 1 in hours
      {
        ClosureIsWhole(hours, through, k);
      }
    } else if first < through && (forall k :: 0 <= k < |hours| ==> first <= hours[k])
              && Increasing(hours) && WholeClosures(hours) {
      assert first in hours && through - 1 in hours;
      assert hours[0] == first;
      LastIsGreatest(hours, through - 1);
      NextIsLeastOpen(hours[|hours| - 1]);
      forall k | 0 < k < |hours|
        ensures hours[k] - hours[k - 1] == 1 || IsWeekendGap(hours[k - 1], hours[k])
      {
        StepFits(hours, through, k);
      }
      assert false;
    }
  }

  /** With one candle for each open hour and none for closed ones, what remains is a candle in the hour of generation
      itself, and a generation so late that no open hour is left. */
  lemma OpenHoursCoveredIff(generated: int, through: int, hours: seq<int>)
    requires Increasing(hours) && MarketIsOpen(through - 1)
    requires forall k :: 0 <= k < |hours| ==> generated <= hours[k] < through && MarketIsOpen(hours[k])
    requires Complete(hours, NextMarketHour(generated), through)
    ensures HasCoverage(generated, through, hours, true) <==> NextMarketHour(generated) < through && generated !in hours
  {
    hide MarketIsOpen, NextMarketHour, HasCoverage;
    NextIsLeastOpen(generated);
    CompleteIsCoveredIff(generated, through, hours);
  }

  // ---------- exactly when the test can be trusted ----------

  /** Every list the test accepts for this window really covers it. */
  ghost predicate Trustworthy(generated: int, through: int) {
    forall hours ::
      Increasing(hours) && (forall k :: 0 <= k < |hours| ==> hours[k] < through)
      && HasCoverage(generated, through, hours, true)
      ==> Complete(hours, NextMarketHour(generated), through)
  }

  /** Candles up to the first Friday close, and then only from the Sunday open nine days later: the gap test
      compares weekdays and hours, never dates. */
  function SkippingHours(generated: int, through: int): seq<int> {
    var first := NextMarketHour(generated);
    var close := CloseAfter(first);
    OpenHours(first, close) + OpenHours(close + 216, through)
  }

  lemma SkippedWeek(generated: int)
    ensures var first := NextMarketHour(generated);
            var close := CloseAfter(first);
            && MarketIsOpen(first) && first < close
            && MarketIsOpen(close - 1) && MarketIsOpen(close + 48) && MarketIsOpen(close + 216)
            && IsWeekendGap(close - 1, close + 216)
  {
    hide MarketIsOpen, NextMarketHour, CloseAfter;
    var first := NextMarketHour(generated);
    var close := CloseAfter(first);
    NextIsLeastOpen(generated);
    CloseAfterIs(first);
    Shift(close - 1, 1);
    Shift(close, 48);
    AddWeeks(close + 48, 1);
    WeekHour(close - 1);
    WeekHour(close + 48);
    WeekHour(close + 216);
    WeekendGapHours(close - 1, close + 216);
  }

  lemma JoinAcrossGap(a: seq<int>, b: seq<int>)
    requires a != [] && b != [] && Increasing(a) && Increasing(b) && Gapless(a) && Gapless(b)
    requires a[|a| - 1] < b[0] && IsWeekendGap(a[|a| - 1], b[0])
    ensures Increasing(a + b) && Gapless(a + b)
  {
    hide IsWeekendGap;
    var all := a + b;
    forall i, j | 0 <= i < j < |all|
      ensures all[i] < all[j]
    {
      if i < |a| <= j {
        assert a[i] <= a[|a| - 1] && b[0] <= b[j - |a|];
      }
    }
    forall k | 0 < k < |all|
      ensures all[k] - all[k - 1] == 1 || IsWeekendGap(all[k - 1], all[k])
    {
      if k < |a| {
        assert all[k] == a[k] && all[k - 1] == a[k - 1];
      } else if k > |a| {
        assert all[k] == b[k - |a|] && all[k - 1] == b[k - |a| - 1];
      }
    }
  }

  lemma SkippingIsAccepted(generated: int, through: int)
    requires CloseAfter(NextMarketHour(generated)) + 217 <= through
    ensures var hours := SkippingHours(generated, through);
            && Increasing(hours) && (forall k :: 0 <= k < |hours| ==> hours[k] < through)
            && HasCoverage(generated, through, hours, true)
            && !Complete(hours, NextMarketHour(generated), through)
  {
    hide MarketIsOpen, NextMarketHour, CloseAfter, IsWeekendGap;
    var first := NextMarketHour(generated);
    var close := CloseAfter(first);
    SkippedWeek(generated);
    OpenHoursAre(first, close);
    OpenHoursAre(close + 216, through);
    LastOpenHour(first, close, close - 1);
    var a, b := OpenHours(first, close), OpenHours(close + 216, through);
    var hours := a + b;
    JoinAcrossGap(a, b);
    ReachesEnd(close + 216, through);
    forall k | 0 <= k < |hours|
      ensures hours[k] < through
    {
      assert if k < |a| then hours[k] in a else hours[k] in b;
    }
    assert close + 48 !in a && close + 48 !in b;
    assert close + 48 !in hours;
  }

  lemma LastOpenHour(start: int, end: int, last: int)
    requires MarketIsOpen(start) && start <= last && last + 1 == end && MarketIsOpen(last)
    ensures OpenHours(start, end) != [] && OpenHours(start, end)[|OpenHours(start, end)| - 1] == last
  {
    var all := OpenHours(start, end);
    OpenHoursAre(start, end);
    assert last in all;
    var k :| 0 <= k < |all| && all[k] == last;
    assert all[|all| - 1] in all;
  }

  lemma ReachesEnd(start: int, end: int)
    requires MarketIsOpen(start) && start < end
    ensures end <= NextMarketHour(OpenHours(start, end)[|OpenHours(start, end)| - 1])
  {
    var all := OpenHours(start, end);
    OpenHoursAre(start, end);
    var last := all[|all| - 1];
    NextIsLeastOpen(last);
    var next := NextMarketHour(last);
    assert last in all;
    LastIsGreatest(all, next);
  }

  lemma LastIsGreatest(all: seq<int>, h: int)
    requires all != [] && Increasing(all)
    ensures h in all ==> h <= all[|all| - 1]
  {
  }

  /** The coverage test can be trusted exactly for windows that end before the second Sunday after their first
      Friday close, 216 hours behind it, is complete. */
  lemma TrustworthyIff(generated: int, through: int)
    ensures Trustworthy(generated, through) <==> through <= CloseAfter(NextMarketHour(generated)) + 216
  {
    if through <= CloseAfter(NextMarketHour(generated)) + 216 {
      forall hours | Increasing(hours) && (forall k :: 0 <= k < |hours| ==> hours[k] < through)
                     && HasCoverage(generated, through, hours, true)
        ensures Complete(hours, NextMarketHour(generated), through)
      {
        ShortWindowIsComplete(generated, through, hours);
      }
    } else {
      SkippingIsAccepted(generated, through);
    }
  }

  /** The governed five-session target is always inside that bound: nothing generated after its reference
      session completed can be misjudged. */
  lemma FiveSessionWindowIsTrustworthy(reference: int, generated: int)
    requires OpensDaily(reference) && DailyCompletion(reference) <= generated
    ensures var maturity := DailyCompletion(TargetEndpoint(reference, 5));
            maturity <= generated + WEEK && Trustworthy(generated, maturity)
  {
    FiveSessionsAreAWeek(reference);
    NextIsLeastOpen(generated);
    CloseAfterIs(NextMarketHour(generated));
    TrustworthyIff(generated, DailyCompletion(TargetEndpoint(reference, 5)));
  }
}
