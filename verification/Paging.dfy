/** Paging through a provider's candles, at most 4999 grid cells a request. */
module Paging {
  import opened CandleGrid

  const PAGE: int := 4999

  datatype Item = Item(time: int, complete: bool)

  /** One page: candles from `from`, itself included or not, up to `to`. */
  datatype Request = Request(from: int, to: int, includeFirst: bool)

  function Filter<T>(s: seq<T>, p: T -> bool): seq<T> {
    if s == [] then []
    else
      var rest := Filter(s[..|s| - 1], p);
      if p(s[|s| - 1]) then rest + [s[|s| - 1]] else rest
  }

  predicate Sorted(s: seq<Item>) {
    forall i, j :: 0 <= i < j < |s| ==> s[i].time < s[j].time
  }

  /** An ideal provider: every candle once, in order, on the grid. */
  predicate Series(s: seq<Item>, g: Granularity) {
    Sorted(s) && forall k :: 0 <= k < |s| ==> Aligned(s[k].time, g)
  }

  predicate Asked(r: Request, x: Item) {
    (if r.includeFirst then r.from <= x.time else r.from < x.time) && x.time < r.to
  }

  function Respond(s: seq<Item>, r: Request): seq<Item> {
    Filter(s, x => Asked(r, x))
  }

  /** The candles a caller of [start, end) is owed. */
  predicate Wanted(x: Item, g: Granularity, start: int, end: int) {
    x.complete && start <= x.time < end && Completion(x.time, g) <= end
  }

  function Expected(s: seq<Item>, g: Granularity, start: int, end: int): seq<Item> {
    Filter(s, x => Wanted(x, g, start, end))
  }

  /** The client's own test on a returned candle. */
  predicate Accepts(r: Request, x: Item, g: Granularity, start: int, end: int) {
    && x.complete
    && start <= x.time < end
    && Completion(x.time, g) <= (if end < r.to then end else r.to)
    && if r.includeFirst then x.time >= r.from else x.time > r.from
  }

  // ---------- filtering ----------

  lemma {:induction false} FilterHas<T>(s: seq<T>, p: T -> bool)
    ensures forall k :: 0 <= k < |Filter(s, p)| ==> p(Filter(s, p)[k]) && Filter(s, p)[k] in s
    ensures forall k :: 0 <= k < |s| && p(s[k]) ==> s[k] in Filter(s, p)
  {
    if s != [] {
      var n := |s| - 1;
      FilterHas(s[..n], p);
      forall k | 0 <= k < |s| && p(s[k])
        ensures s[k] in Filter(s, p)
      {
        if k < n { assert s[..n][k] == s[k]; }
      }
    }
  }

  lemma {:induction false} FilterSorted(s: seq<Item>, p: Item -> bool)
    requires Sorted(s)
    ensures Sorted(Filter(s, p))
  {
    if s != [] {
      var n := |s| - 1;
      FilterSorted(s[..n], p);
      FilterHas(s[..n], p);
      forall k | 0 <= k < |Filter(s[..n], p)|
        ensures Filter(s[..n], p)[k].time < s[n].time
      {
        var j :| 0 <= j < n && s[..n][j] == Filter(s[..n], p)[k];
      }
    }
  }

  lemma {:induction false} FilterTwice<T>(s: seq<T>, p: T -> bool, q: T -> bool, r: T -> bool)
    requires forall x :: x in s ==> (r(x) <==> p(x) && q(x))
    ensures Filter(Filter(s, p), q) == Filter(s, r)
  {
    if s != [] {
      var n := |s| - 1;
      var f := Filter(s[..n], p);
      FilterTwice(s[..n], p, q, r);
      assert s[n] in s;
      if p(s[n]) {
        assert Filter(s, p)[..|f|] == f;
      }
    }
  }

  /** A filter splits into an earlier and a later part. */
  lemma {:induction false} FilterSplit(s: seq<Item>, whole: Item -> bool, before: Item -> bool, after: Item -> bool)
    requires forall x :: x in s ==> (whole(x) <==> before(x) || after(x))
    requires forall i, j :: 0 <= i <= j < |s| ==> !(after(s[i]) && before(s[j]))
    ensures Filter(s, whole) == Filter(s, before) + Filter(s, after)
  {
    if s != [] {
      var n := |s| - 1;
      assert s[n] in s;
      FilterSplit(s[..n], whole, before, after);
      if before(s[n]) {
        FilterNone(s, after);
        FilterNone(s[..n], after);
      }
    }
  }

  lemma {:induction false} FilterNone<T>(s: seq<T>, p: T -> bool)
    requires forall x :: x in s ==> !p(x)
    ensures Filter(s, p) == []
  {
    if s != [] {
      assert s[|s| - 1] in s;
      FilterNone(s[..|s| - 1], p);
    }
  }

  // ---------- one page ----------

  /** Whether the walk has left a candle behind it. */
  predicate Past(cursor: int, includeFirst: bool, x: Item) {
    if includeFirst then x.time < cursor else x.time <= cursor
  }

  /** The wanted candles the walk has collected. */
  function Collected(s: seq<Item>, g: Granularity, start: int, end: int, cursor: int, includeFirst: bool): seq<Item> {
    Filter(s, x => Wanted(x, g, start, end) && Past(cursor, includeFirst, x))
  }

  function Accepted(items: seq<Item>, r: Request, g: Granularity, start: int, end: int): seq<Item> {
    Filter(items, x => Accepts(r, x, g, start, end))
  }

  /** Taking a page gains exactly the wanted candles between the old cursor and the new one. */
  lemma PageGains(s: seq<Item>, g: Granularity, start: int, end: int, r: Request, cursor: int, includeFirst: bool)
    requires Series(s, g) && start <= r.from < r.to < end && Aligned(r.to, g)
    requires var got := Accepted(Respond(s, r), r, g, start, end);
             if got != [] && got[|got| - 1].time > r.from then cursor == got[|got| - 1].time && !includeFirst
             else cursor == r.to && includeFirst
    ensures Collected(s, g, start, end, cursor, includeFirst)
         == Collected(s, g, start, end, r.from, r.includeFirst)
            + Accepted(Respond(s, r), r, g, start, end)
    ensures r.from < cursor && Aligned(cursor, g) && cursor < end
  {
    hide Aligned, Completion;
    var got := Accepted(Respond(s, r), r, g, start, end);
    var both := (x: Item) => Asked(r, x) && Accepts(r, x, g, start, end);
    FilterTwice(s, x => Asked(r, x), x => Accepts(r, x, g, start, end), both);
    FilterHas(s, both);
    FilterSorted(s, both);
    var whole := (x: Item) => Wanted(x, g, start, end) && Past(cursor, includeFirst, x);
    var before := (x: Item) => Wanted(x, g, start, end) && Past(r.from, r.includeFirst, x);
    if got != [] && got[|got| - 1].time > r.from {
      assert got[|got| - 1] in s;
    }
    forall x | x in s
      ensures whole(x) <==> before(x) || both(x)
    {
      PageCase(s, g, start, end, r, got, cursor, includeFirst, x);
    }
    forall i, j | 0 <= i <= j < |s|
      ensures !(both(s[i]) && before(s[j]))
    {
      assert s[i].time <= s[j].time;
    }
    FilterSplit(s, whole, before, both);
  }

  lemma PageCase(s: seq<Item>, g: Granularity, start: int, end: int, r: Request, got: seq<Item>, cursor: int,
                 includeFirst: bool, x: Item)
    requires Series(s, g) && start <= r.from < r.to < end && Aligned(r.to, g) && x in s
    requires forall k :: 0 <= k < |s| && Asked(r, s[k]) && Accepts(r, s[k], g, start, end) ==> s[k] in got
    requires forall k :: 0 <= k < |got| ==> Asked(r, got[k]) && Accepts(r, got[k], g, start, end) && got[k] in s
    requires Sorted(got)
    requires if got != [] && got[|got| - 1].time > r.from then cursor == got[|got| - 1].time && !includeFirst
             else cursor == r.to && includeFirst
    ensures Wanted(x, g, start, end) && Past(cursor, includeFirst, x) <==>
              (Wanted(x, g, start, end) && Past(r.from, r.includeFirst, x))
              || (Asked(r, x) && Accepts(r, x, g, start, end))
  {
    hide Aligned;
    var k :| 0 <= k < |s| && s[k] == x;
    if Asked(r, x) && Accepts(r, x, g, start, end) {
      var j :| 0 <= j < |got| && got[j] == x;
      assert got[j].time <= got[|got| - 1].time;
    }
    if x.time < r.to {
      GridSpacing(x.time, r.to, g);
    }
  }

  // ---------- the walk ----------

  /** A page spans at most 4999 grid cells, none of it behind the range. */
  predicate FitsPage(r: Request, g: Granularity, end: int) {
    r.from < r.to <= end && r.to - r.from <= PAGE * Step(g)
  }

  /** Each request starts where the walk stands: past the previous one's start, and never behind a gap. */
  predicate Chained(requests: seq<Request>) {
    forall k :: 0 < k < |requests| ==> requests[k - 1].from < requests[k].from <= requests[k - 1].to
  }

  predicate Paged(requests: seq<Request>, g: Granularity, end: int) {
    Chained(requests) && forall k :: 0 <= k < |requests| ==> FitsPage(requests[k], g, end)
  }

  /** The walk stands behind the start of its last page and not beyond its end. */
  predicate StandsAt(requests: seq<Request>, cursor: int) {
    requests != [] ==> requests[|requests| - 1].from < cursor <= requests[|requests| - 1].to
  }

  lemma AppendPage(requests: seq<Request>, g: Granularity, end: int, r: Request)
    requires Paged(requests, g, end) && StandsAt(requests, r.from) && FitsPage(r, g, end)
    ensures Paged(requests + [r], g, end)
    ensures forall cursor :: r.from < cursor <= r.to ==> StandsAt(requests + [r], cursor)
  {
    hide FitsPage;
  }

  lemma PageBeyondWeek(g: Granularity)
    ensures 168 * HOUR < PAGE * Step(g)
  {
  }

  /** The end of the next page: a grid point behind the cursor, or the end of the range. */
  lemma PageEnd(g: Granularity, cursor: int, end: int)
    requires cursor < end
    ensures var limit := cursor + PAGE * Step(g);
            var to := if limit < end then Floor(limit, g) else end;
            FitsPage(Request(cursor, to, true), g, end) && (limit < end ==> Aligned(to, g) && to < end)
  {
    hide Floor, Step;
    PageBeyondWeek(g);
    FloorIsLast(cursor + PAGE * Step(g), g);
  }

  /** `fetch_candles` against the ideal provider. */
  method FetchCandles(s: seq<Item>, g: Granularity, requestedStart: int, end: int)
    returns (ok: bool, candles: seq<Item>, requests: seq<Request>)
    requires Series(s, g)
    ensures ok <==> requestedStart < end
    ensures ok ==> candles == Expected(s, g, Floor(requestedStart, g), end)
    ensures ok ==> Paged(requests, g, end)
  {
    hide Aligned, Floor, Step, Expected, Accepted, Collected, Respond, Series, Paged, StandsAt;
    candles, requests := [], [];
    if requestedStart >= end {
      return false, candles, requests;
    }
    var found, start := CanonicalLiveStart(requestedStart, g);
    FloorIsLast(requestedStart, g);
    var window := PAGE * Step(g);
    var cursor, firstRequest := start, true;
    NothingBehind(s, g, start, end);
    NoPages(g, end, cursor);
    while cursor < end
      invariant start <= cursor < end
      invariant candles == Collected(s, g, start, end, cursor, firstRequest)
      invariant Paged(requests, g, end) && StandsAt(requests, cursor)
      decreases end - cursor
    {
      var windowEnd := if cursor + window < end then cursor + window else end;
      PageEnd(g, cursor, end);
      if windowEnd < end {
        found, windowEnd := CanonicalLiveStart(windowEnd, g);
      }
      var r := Request(cursor, windowEnd, firstRequest);
      AppendPage(requests, g, end, r);
      requests := requests + [r];
      var accepted := Accepted(Respond(s, r), r, g, start, end);
      candles := candles + accepted;
      if windowEnd == end {
        LastPage(s, g, start, end, r);
        return true, candles, requests;
      }
      if accepted != [] && accepted[|accepted| - 1].time > cursor {
        cursor := accepted[|accepted| - 1].time;
        firstRequest := false;
      } else {
        cursor := windowEnd;
        firstRequest := true;
      }
      PageGains(s, g, start, end, r, cursor, firstRequest);
      CursorOnPage(s, g, start, end, r);
    }
    ok := true;
  }

  lemma NoPages(g: Granularity, end: int, cursor: int)
    ensures Paged([], g, end) && StandsAt([], cursor)
  {
  }

  lemma CursorOnPage(s: seq<Item>, g: Granularity, start: int, end: int, r: Request)
    ensures var got := Accepted(Respond(s, r), r, g, start, end);
            got != [] ==> got[|got| - 1].time <= r.to
  {
    var got := Accepted(Respond(s, r), r, g, start, end);
    FilterHas(Respond(s, r), x => Accepts(r, x, g, start, end));
  }

  lemma NothingBehind(s: seq<Item>, g: Granularity, start: int, end: int)
    ensures Collected(s, g, start, end, start, true) == []
  {
    FilterNone(s, x => Wanted(x, g, start, end) && Past(start, true, x));
  }

  lemma LastPage(s: seq<Item>, g: Granularity, start: int, end: int, r: Request)
    requires Series(s, g) && start <= r.from && r.to == end
    ensures Collected(s, g, start, end, r.from, r.includeFirst)
            + Accepted(Respond(s, r), r, g, start, end) == Expected(s, g, start, end)
  {
    hide Aligned, Completion;
    var both := (x: Item) => Asked(r, x) && Accepts(r, x, g, start, end);
    FilterTwice(s, x => Asked(r, x), x => Accepts(r, x, g, start, end), both);
    var before := (x: Item) => Wanted(x, g, start, end) && Past(r.from, r.includeFirst, x);
    forall i, j | 0 <= i <= j < |s|
      ensures !(both(s[i]) && before(s[j]))
    {
      assert s[i].time <= s[j].time;
    }
    FilterSplit(s, x => Wanted(x, g, start, end), before, both);
  }

  // ---------- what a page and a result are ----------

  /** A request that fits a page is answered by at most 4999 candles. */
  lemma {:induction false} PageFits(s: seq<Item>, g: Granularity, r: Request, end: int)
    requires Series(s, g) && FitsPage(r, g, end)
    ensures |Respond(s, r)| <= PAGE
  {
    var got := Respond(s, r);
    FilterHas(s, x => Asked(r, x));
    FilterSorted(s, x => Asked(r, x));
    if got != [] {
      Spread(got, g, |got| - 1);
      StepBound(|got| - 1, g);
    }
  }

  lemma StepBound(n: int, g: Granularity)
    ensures n * Step(g) < PAGE * Step(g) ==> n < PAGE
  {
    if n >= PAGE {
      MulOrder(PAGE, n, Step(g));
    }
  }

  lemma {:induction false} Spread(s: seq<Item>, g: Granularity, n: nat)
    requires Sorted(s) && n < |s| && forall k :: 0 <= k < |s| ==> Aligned(s[k].time, g)
    ensures s[0].time + n * Step(g) <= s[n].time
  {
    hide Aligned;
    if n > 0 {
      Spread(s, g, n - 1);
      GridSpacing(s[n - 1].time, s[n].time, g);
      assert n * Step(g) == (n - 1) * Step(g) + Step(g);
    }
  }

  /** The result holds each wanted candle, no other, in order and once. */
  lemma ExpectedIs(s: seq<Item>, g: Granularity, start: int, end: int)
    requires Series(s, g)
    ensures var e := Expected(s, g, start, end);
            && Sorted(e)
            && forall x :: x in e <==> x in s && x.complete && start <= x.time && Completion(x.time, g) <= end
  {
    FilterHas(s, x => Wanted(x, g, start, end));
    FilterSorted(s, x => Wanted(x, g, start, end));
    forall x | x in s && Wanted(x, g, start, end)
      ensures x in Expected(s, g, start, end)
    {
      var k :| 0 <= k < |s| && s[k] == x;
    }
  }
}
