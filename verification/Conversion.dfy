/** Converting a quote currency to CAD over the active instruments, breadth first. Rates along a chain are exact;
    only the final one is rounded. */
module Conversion {
  import Rounding

  type Currency = string
  const CAD: Currency := "CAD"

  /** An active instrument with the midpoint of its latest candle, if it has one. */
  datatype Quote = Quote(base: Currency, quote: Currency, midpoint: real, observed: bool)

  datatype Edge = Edge(from: Currency, to: Currency, rate: real, instrument: nat, direct: bool)

  datatype Node = Node(currency: Currency, rate: real, path: seq<Edge>)

  datatype Search = Found(rate: real, path: seq<Edge>) | Unreachable

  /** A conversion rate in hundred-millionths, as it is stored and used for sizing, and the chain behind it. */
  datatype Rate = Quoted(rate: int, path: seq<Edge>) | NoPath

  const RATE_UNITS: real := 100_000_000.0

  /** Every observed instrument can be traversed both ways. */
  function Edges(quotes: seq<Quote>): seq<Edge>
    requires forall k :: 0 <= k < |quotes| ==> quotes[k].midpoint > 0.0
  {
    if quotes == [] then []
    else
      var n := |quotes| - 1;
      var rest := Edges(quotes[..n]);
      var q := quotes[n];
      if !q.observed then rest
      else rest + [Edge(q.base, q.quote, q.midpoint, n, true), Edge(q.quote, q.base, 1.0 / q.midpoint, n, false)]
  }

  function EdgesFrom(edges: seq<Edge>, c: Currency): seq<Edge> {
    if edges == [] then []
    else
      var rest := EdgesFrom(edges[..|edges| - 1], c);
      if edges[|edges| - 1].from == c then rest + [edges[|edges| - 1]] else rest
  }

  /** `path` leads from `c` to `d` along edges of the graph. */
  predicate IsPath(edges: seq<Edge>, c: Currency, path: seq<Edge>, d: Currency) {
    if path == [] then c == d
    else
      var last := path[|path| - 1];
      last in edges && last.to == d && IsPath(edges, c, path[..|path| - 1], last.from)
  }

  function Product(path: seq<Edge>): real {
    if path == [] then 1.0 else Product(path[..|path| - 1]) * path[|path| - 1].rate
  }

  /** No currency is visited twice. */
  predicate Simple(c: Currency, path: seq<Edge>) {
    && (forall i :: 0 <= i < |path| ==> path[i].to != c)
    && (forall i, j :: 0 <= i < j < |path| ==> path[i].to != path[j].to)
  }

  ghost predicate Shortest(edges: seq<Edge>, c: Currency, n: nat, d: Currency) {
    forall p :: IsPath(edges, c, p, d) ==> n <= |p|
  }

  ghost predicate Reachable(quotes: seq<Quote>, c: Currency)
    requires forall k :: 0 <= k < |quotes| ==> quotes[k].midpoint > 0.0
  {
    exists p :: IsPath(Edges(quotes), c, p, CAD)
  }

  // ---------- the graph ----------

  lemma {:induction false} EdgesFromAre(edges: seq<Edge>, c: Currency)
    ensures forall e :: e in EdgesFrom(edges, c) <==> e in edges && e.from == c
  {
    if edges != [] {
      EdgesFromAre(edges[..|edges| - 1], c);
      assert edges == edges[..|edges| - 1] + [edges[|edges| - 1]];
    }
  }

  lemma EdgesFromAppend(edges: seq<Edge>, e: Edge, c: Currency)
    ensures EdgesFrom(edges + [e], c) == if e.from == c then EdgesFrom(edges, c) + [e] else EdgesFrom(edges, c)
  {
    assert (edges + [e])[..|edges|] == edges;
  }

  function Neighbours(graph: map<Currency, seq<Edge>>, c: Currency): seq<Edge> {
    if c in graph then graph[c] else []
  }

  lemma EmptyGraph()
    ensures forall c :: Neighbours(map[], c) == EdgesFrom([], c)
  {
  }

  /** `graph.setdefault(from, []).append(...)` */
  method AddEdge(graph: map<Currency, seq<Edge>>, ghost edges: seq<Edge>, e: Edge)
      returns (more: map<Currency, seq<Edge>>)
    requires forall c :: Neighbours(graph, c) == EdgesFrom(edges, c)
    ensures forall c :: Neighbours(more, c) == EdgesFrom(edges + [e], c)
  {
    more := graph[e.from := Neighbours(graph, e.from) + [e]];
    forall c
      ensures Neighbours(more, c) == EdgesFrom(edges + [e], c)
    {
      EdgesFromAppend(edges, e, c);
    }
  }

  /** The adjacency lists the function builds, in instrument order. */
  method BuildGraph(quotes: seq<Quote>) returns (graph: map<Currency, seq<Edge>>)
    requires forall k :: 0 <= k < |quotes| ==> quotes[k].midpoint > 0.0
    ensures forall c :: Neighbours(graph, c) == EdgesFrom(Edges(quotes), c)
  {
    hide EdgesFrom, Neighbours;
    EmptyGraph();
    graph := map[];
    for k := 0 to |quotes|
      invariant forall c :: Neighbours(graph, c) == EdgesFrom(Edges(quotes[..k]), c)
    {
      var q := quotes[k];
      assert quotes[..k + 1][..k] == quotes[..k];
      if q.observed {
        ghost var edges := Edges(quotes[..k]);
        var direct := Edge(q.base, q.quote, q.midpoint, k, true);
        var inverse := Edge(q.quote, q.base, 1.0 / q.midpoint, k, false);
        assert Edges(quotes[..k + 1]) == edges + [direct] + [inverse];
        graph := AddEdge(graph, edges, direct);
        graph := AddEdge(graph, edges + [direct], inverse);
      }
    }
    assert quotes[..|quotes|] == quotes;
  }

  // ---------- the search ----------

  /** A queue entry: a shortest simple path from the quote currency through visited currencies. */
  ghost predicate Good(edges: seq<Edge>, c: Currency, visited: set<Currency>, x: Node) {
    && IsPath(edges, c, x.path, x.currency)
    && x.rate == Product(x.path)
    && Simple(c, x.path)
    && c in visited && x.currency in visited
    && (forall i :: 0 <= i < |x.path| ==> x.path[i].to in visited)
    && Shortest(edges, c, |x.path|, x.currency)
  }

  predicate Queued(queue: seq<Node>, c: Currency) {
    exists k :: 0 <= k < |queue| && queue[k].currency == c
  }

  /** Behind every visited currency that waits for nothing, all neighbours are visited. */
  ghost predicate Expanded(edges: seq<Edge>, visited: set<Currency>, queue: seq<Node>, also: set<Currency>) {
    forall e :: e in edges && e.from in visited && !Queued(queue, e.from) && e.from !in also ==> e.to in visited
  }

  /** Everything within `n` edges is visited. */
  ghost predicate Ball(edges: seq<Edge>, c: Currency, visited: set<Currency>, n: nat) {
    forall p, d :: IsPath(edges, c, p, d) && |p| <= n ==> d in visited
  }

  /** The queue holds good entries of two consecutive levels, in order. */
  ghost predicate Layered(edges: seq<Edge>, c: Currency, visited: set<Currency>, queue: seq<Node>, level: nat) {
    && (forall k :: 0 <= k < |queue| ==> Good(edges, c, visited, queue[k]) && level <= |queue[k].path| <= level + 1)
    && (forall i, j :: 0 <= i < j < |queue| ==> |queue[i].path| <= |queue[j].path|)
  }

  lemma StartLayered(edges: seq<Edge>, c: Currency)
    ensures Layered(edges, c, {c}, [Node(c, 1.0, [])], 0) && Ball(edges, c, {c}, 0)
    ensures Expanded(edges, {c}, [Node(c, 1.0, [])], {})
  {
    assert [Node(c, 1.0, [])][0].currency == c;
  }

  /** Extending the entry being expanded by an edge to an unvisited currency gives a shortest path. */
  lemma Extend(edges: seq<Edge>, c: Currency, visited: set<Currency>, x: Node, e: Edge)
    requires Good(edges, c, visited, x) && Ball(edges, c, visited, |x.path|)
    requires e in edges && e.from == x.currency && e.to !in visited
    ensures Good(edges, c, visited + {e.to}, Node(e.to, x.rate * e.rate, x.path + [e]))
  {
    var path := x.path + [e];
    assert path[..|path| - 1] == x.path;
    forall p | IsPath(edges, c, p, e.to)
      ensures |path| <= |p|
    {
      assert |p| <= |x.path| ==> e.to in visited;
    }
  }

  lemma GoodGrows(edges: seq<Edge>, c: Currency, visited: set<Currency>, more: set<Currency>, x: Node)
    requires Good(edges, c, visited, x) && visited <= more
    ensures Good(edges, c, more, x)
  {
  }

  lemma Enqueue(edges: seq<Edge>, c: Currency, visited: set<Currency>, queue: seq<Node>, x: Node, y: Node)
    requires Layered(edges, c, visited, queue, |x.path|) && |y.path| == |x.path| + 1
    requires Good(edges, c, visited + {y.currency}, y)
    ensures Layered(edges, c, visited + {y.currency}, queue + [y], |x.path|)
  {
    hide Good;
    forall k | 0 <= k < |queue|
      ensures Good(edges, c, visited + {y.currency}, queue[k])
    {
      GoodGrows(edges, c, visited, visited + {y.currency}, queue[k]);
    }
  }

  lemma EnqueueExpanded(edges: seq<Edge>, visited: set<Currency>, queue: seq<Node>, also: set<Currency>, y: Node)
    requires Expanded(edges, visited, queue, also)
    ensures Expanded(edges, visited + {y.currency}, queue + [y], also)
  {
    hide Queued;
    forall e | e in edges && e.from in visited + {y.currency} && !Queued(queue + [y], e.from) && e.from !in also
      ensures e.to in visited + {y.currency}
    {
      QueuedAppend(queue, y, e.from);
    }
  }

  lemma QueuedAppend(queue: seq<Node>, y: Node, c: Currency)
    ensures Queued(queue + [y], c) <==> Queued(queue, c) || y.currency == c
  {
    var all := queue + [y];
    assert all[|queue|] == y;
    if Queued(queue, c) {
      var k :| 0 <= k < |queue| && queue[k].currency == c;
      assert all[k] == queue[k];
    }
  }

  lemma QueuedTail(queue: seq<Node>, c: Currency)
    requires queue != []
    ensures Queued(queue, c) <==> Queued(queue[1..], c) || queue[0].currency == c
  {
    if Queued(queue, c) {
      var k :| 0 <= k < |queue| && queue[k].currency == c;
      assert k == 0 || queue[1..][k - 1] == queue[k];
    }
    if Queued(queue[1..], c) {
      var k :| 0 <= k < |queue[1..]| && queue[1..][k].currency == c;
      assert queue[1..][k] == queue[k + 1];
    }
  }

  lemma Dequeue(edges: seq<Edge>, c: Currency, visited: set<Currency>, queue: seq<Node>)
    requires queue != [] && Layered(edges, c, visited, queue, |queue[0].path|) && Expanded(edges, visited, queue, {})
    ensures Layered(edges, c, visited, queue[1..], |queue[0].path|)
    ensures Expanded(edges, visited, queue[1..], {queue[0].currency})
  {
    hide Good, Queued;
    forall e | e in edges && e.from in visited && !Queued(queue[1..], e.from) && e.from != queue[0].currency
      ensures e.to in visited
    {
      QueuedTail(queue, e.from);
    }
  }

  lemma CloserIsNotQueued(edges: seq<Edge>, c: Currency, visited: set<Currency>, queue: seq<Node>, level: nat,
                          p: seq<Edge>, d: Currency)
    requires Layered(edges, c, visited, queue, level) && IsPath(edges, c, p, d) && |p| <= level
    ensures queue != [] && level < |queue[0].path| ==> !Queued(queue, d)
  {
    if queue != [] && level < |queue[0].path| {
      forall k | 0 <= k < |queue|
        ensures queue[k].currency != d
      {
        assert Shortest(edges, c, |queue[k].path|, queue[k].currency);
        assert |queue[0].path| <= |queue[k].path|;
      }
    }
  }

  /** Once every entry of a level is expanded, the next level is visited as a whole. */
  lemma NextLevel(edges: seq<Edge>, c: Currency, visited: set<Currency>, queue: seq<Node>, level: nat)
    requires Layered(edges, c, visited, queue, level) && Ball(edges, c, visited, level)
    requires Expanded(edges, visited, queue, {}) && queue != []
    ensures Layered(edges, c, visited, queue, |queue[0].path|) && Ball(edges, c, visited, |queue[0].path|)
  {
    if |queue[0].path| == level + 1 {
      forall p: seq<Edge>, d | IsPath(edges, c, p, d) && |p| <= level + 1
        ensures d in visited
      {
        if |p| == level + 1 {
          var last := p[level];
          assert IsPath(edges, c, p[..level], last.from) && |p[..level]| <= level;
          CloserIsNotQueued(edges, c, visited, queue, level, p[..level], last.from);
        }
      }
    }
  }

  lemma {:induction false} NeverLeaves(edges: seq<Edge>, c: Currency, visited: set<Currency>, p: seq<Edge>, d: Currency)
    requires Expanded(edges, visited, [], {}) && c in visited && IsPath(edges, c, p, d)
    ensures d in visited
  {
    if p != [] {
      NeverLeaves(edges, c, visited, p[..|p| - 1], p[|p| - 1].from);
    }
  }

  function Targets(edges: seq<Edge>): set<Currency> {
    set e | e in edges :: e.to
  }

  /** The loop over the neighbours of the currency taken from the queue. */
  method Expand(
    ghost edges: seq<Edge>, c: Currency, adjacent: seq<Edge>, x: Node, queue0: seq<Node>, visited0: set<Currency>)
    returns (r: Search, queue: seq<Node>, visited: set<Currency>)
    requires forall e :: e in adjacent <==> e in edges && e.from == x.currency
    requires Good(edges, c, visited0, x) && Ball(edges, c, visited0, |x.path|)
    requires Layered(edges, c, visited0, queue0, |x.path|) && Expanded(edges, visited0, queue0, {x.currency})
    requires CAD !in visited0 && visited0 <= Targets(edges) + {c}
    ensures r.Found? ==>
              && IsPath(edges, c, r.path, CAD) && Simple(c, r.path) && r.rate == Product(r.path)
              && Shortest(edges, c, |r.path|, CAD)
    ensures r.Unreachable? ==>
              && Layered(edges, c, visited, queue, |x.path|) && Ball(edges, c, visited, |x.path|)
              && Expanded(edges, visited, queue, {})
              && CAD !in visited && visited0 <= visited <= Targets(edges) + {c}
              && (visited == visited0 ==> queue == queue0)
  {
    hide Good, Layered, Expanded, Ball, IsPath, Simple, Shortest, Product;
    queue, visited := queue0, visited0;
    for k := 0 to |adjacent|
      invariant visited0 <= visited <= Targets(edges) + {c} && CAD !in visited
      invariant visited == visited0 ==> queue == queue0
      invariant Good(edges, c, visited, x) && Ball(edges, c, visited, |x.path|)
      invariant Layered(edges, c, visited, queue, |x.path|)
      invariant Expanded(edges, visited, queue, {x.currency})
      invariant forall j :: 0 <= j < k ==> adjacent[j].to in visited
    {
      var e := adjacent[k];
      assert e in adjacent;
      if e.to !in visited {
        Extend(edges, c, visited, x, e);
        var next := Node(e.to, x.rate * e.rate, x.path + [e]);
        if e.to == CAD {
          GoodMeans(edges, c, visited + {e.to}, next);
          return Found(next.rate, next.path), queue, visited;
        }
        Enqueue(edges, c, visited, queue, x, next);
        EnqueueExpanded(edges, visited, queue, {x.currency}, next);
        GoodGrows(edges, c, visited, visited + {e.to}, x);
        BallGrows(edges, c, visited, visited + {e.to}, |x.path|);
        visited, queue := visited + {e.to}, queue + [next];
      }
    }
    AllExpanded(edges, visited, queue, x.currency, adjacent);
    r := Unreachable;
  }

  lemma ReachedBy(quotes: seq<Quote>, c: Currency, p: seq<Edge>)
    requires forall k :: 0 <= k < |quotes| ==> quotes[k].midpoint > 0.0
    requires IsPath(Edges(quotes), c, p, CAD)
    ensures Reachable(quotes, c)
  {
  }

  /** `quote_to_cad`: it fails exactly when no chain of instruments leads to CAD, and otherwise returns a chain with
      the fewest instruments possible, no currency twice, and the product of its rates rounded to eight places. */
  method QuoteToCad(quotes: seq<Quote>, c: Currency) returns (r: Rate)
    requires forall k :: 0 <= k < |quotes| ==> quotes[k].midpoint > 0.0
    ensures r.Quoted? <==> Reachable(quotes, c)
    ensures r.Quoted? ==>
              && IsPath(Edges(quotes), c, r.path, CAD)
              && Simple(c, r.path)
              && Shortest(Edges(quotes), c, |r.path|, CAD)
              && r.rate == Rounding.Nearest(Product(r.path) * RATE_UNITS)
              && -0.5 <= r.rate as real - Product(r.path) * RATE_UNITS <= 0.5
  {
    hide Edges, EdgesFrom, Neighbours, Good, Layered, Expanded, Ball, Reachable, IsPath, Simple, Shortest, Product,
      Targets, Rounding.Nearest;
    ghost var edges := Edges(quotes);
    if c == CAD {
      AtHome(quotes);
      return Quoted(100_000_000, []);
    }
    var graph := BuildGraph(quotes);
    var queue, visited := [Node(c, 1.0, [])], {c};
    StartLayered(edges, c);
    while queue != []
      invariant c in visited && CAD !in visited && visited <= Targets(edges) + {c}
      invariant queue != [] ==>
          Layered(edges, c, visited, queue, |queue[0].path|) && Ball(edges, c, visited, |queue[0].path|)
      invariant Expanded(edges, visited, queue, {})
      decreases |Targets(edges) + {c} - visited|, |queue|
    {
      var x := queue[0];
      HeadGood(edges, c, visited, queue);
      Dequeue(edges, c, visited, queue);
      queue := queue[1..];
      EdgesFromAre(edges, x.currency);
      var found;
      ghost var visited0, queue0 := visited, queue;
      found, queue, visited := Expand(edges, c, Neighbours(graph, x.currency), x, queue, visited);
      if found.Found? {
        ReachedBy(quotes, c, found.path);
        Rounding.NearestIff(found.rate * RATE_UNITS, Rounding.Nearest(found.rate * RATE_UNITS));
        return Quoted(Rounding.Nearest(found.rate * RATE_UNITS), found.path);
      }
      if queue != [] {
        NextLevel(edges, c, visited, queue, |x.path|);
      }
      if visited != visited0 {
        Shrinks(Targets(edges) + {c}, visited0, visited);
      }
    }
    CutOff(quotes, c, visited);
    r := NoPath;
  }

  lemma AtHome(quotes: seq<Quote>)
    requires forall k :: 0 <= k < |quotes| ==> quotes[k].midpoint > 0.0
    ensures Reachable(quotes, CAD) && IsPath(Edges(quotes), CAD, [], CAD)
    ensures Simple(CAD, []) && Shortest(Edges(quotes), CAD, 0, CAD) && Product([]) == 1.0
    ensures Rounding.Nearest(1.0 * RATE_UNITS) == 100_000_000
  {
    assert IsPath(Edges(quotes), CAD, [], CAD);
  }

  lemma CutOff(quotes: seq<Quote>, c: Currency, visited: set<Currency>)
    requires forall k :: 0 <= k < |quotes| ==> quotes[k].midpoint > 0.0
    requires Expanded(Edges(quotes), visited, [], {}) && c in visited && CAD !in visited
    ensures !Reachable(quotes, c)
  {
    forall p
      ensures !IsPath(Edges(quotes), c, p, CAD)
    {
      if IsPath(Edges(quotes), c, p, CAD) {
        NeverLeaves(Edges(quotes), c, visited, p, CAD);
      }
    }
  }

  lemma HeadGood(edges: seq<Edge>, c: Currency, visited: set<Currency>, queue: seq<Node>)
    requires queue != [] && Layered(edges, c, visited, queue, |queue[0].path|)
    ensures Good(edges, c, visited, queue[0])
  {
    hide Good;
  }

  lemma GoodMeans(edges: seq<Edge>, c: Currency, visited: set<Currency>, x: Node)
    requires Good(edges, c, visited, x)
    ensures IsPath(edges, c, x.path, x.currency) && Simple(c, x.path) && x.rate == Product(x.path)
    ensures Shortest(edges, c, |x.path|, x.currency)
  {
  }

  lemma BallGrows(edges: seq<Edge>, c: Currency, visited: set<Currency>, more: set<Currency>, n: nat)
    requires Ball(edges, c, visited, n) && visited <= more
    ensures Ball(edges, c, more, n)
  {
  }

  lemma AllExpanded(edges: seq<Edge>, visited: set<Currency>, queue: seq<Node>, x: Currency, adjacent: seq<Edge>)
    requires Expanded(edges, visited, queue, {x})
    requires forall e :: e in edges && e.from == x ==> e in adjacent
    requires forall j :: 0 <= j < |adjacent| ==> adjacent[j].to in visited
    ensures Expanded(edges, visited, queue, {})
  {
  }

  lemma Shrinks(all: set<Currency>, less: set<Currency>, more: set<Currency>)
    requires less < more <= all
    ensures |all - more| < |all - less|
  {
    var x :| x in more && x !in less;
    assert all - more < all - less by {
      assert x in all - less && x !in all - more;
    }
    Cardinal(all - more, all - less);
  }

  lemma Cardinal(a: set<Currency>, b: set<Currency>)
    requires a < b
    ensures |a| < |b|
  {
    assert |b| == |a| + |b - a| by {
      assert b == a + (b - a);
    }
    assert b - a != {};
  }

  // ---------- there and back ----------

  function Flip(e: Edge): Edge {
    Edge(e.to, e.from, if e.rate == 0.0 then 0.0 else 1.0 / e.rate, e.instrument, !e.direct)
  }

  /** A chain walked backwards. */
  function Reverse(path: seq<Edge>): seq<Edge> {
    if path == [] then [] else [Flip(path[|path| - 1])] + Reverse(path[..|path| - 1])
  }

  lemma {:induction false} FlipIsEdge(quotes: seq<Quote>, e: Edge)
    requires forall k :: 0 <= k < |quotes| ==> quotes[k].midpoint > 0.0
    requires e in Edges(quotes)
    ensures Flip(e) in Edges(quotes) && e.rate > 0.0 && e.rate * Flip(e).rate == 1.0
  {
    var n := |quotes| - 1;
    var q := quotes[n];
    if e in Edges(quotes[..n]) {
      FlipIsEdge(quotes[..n], e);
    } else {
      var m := q.midpoint;
      Inverse(m);
      assert e == Edge(q.base, q.quote, m, n, true) || e == Edge(q.quote, q.base, 1.0 / m, n, false);
    }
  }

  lemma Inverse(m: real)
    requires m > 0.0
    ensures 1.0 / m > 0.0 && m * (1.0 / m) == 1.0 && 1.0 / (1.0 / m) == m
  {
  }

  lemma {:induction false} Prepend(edges: seq<Edge>, e: Edge, path: seq<Edge>, d: Currency)
    requires e in edges && IsPath(edges, e.to, path, d)
    ensures IsPath(edges, e.from, [e] + path, d) && Product([e] + path) == e.rate * Product(path)
  {
    var all := [e] + path;
    if path == [] {
      assert all == [e] && all[..0] == [];
    } else {
      Prepend(edges, e, path[..|path| - 1], path[|path| - 1].from);
      assert all[..|all| - 1] == [e] + path[..|path| - 1];
      Associate(e.rate, Product(path[..|path| - 1]), path[|path| - 1].rate);
    }
  }

  lemma Associate(a: real, b: real, c: real)
    ensures a * b * c == a * (b * c)
  {
  }

  /** Every chain can be walked back, and there and back multiplies to exactly one. */
  lemma {:induction false} ThereAndBack(quotes: seq<Quote>, c: Currency, path: seq<Edge>, d: Currency)
    requires forall k :: 0 <= k < |quotes| ==> quotes[k].midpoint > 0.0
    requires IsPath(Edges(quotes), c, path, d)
    ensures IsPath(Edges(quotes), d, Reverse(path), c) && |Reverse(path)| == |path|
    ensures Product(path) > 0.0 && Product(path) * Product(Reverse(path)) == 1.0
  {
    hide Edges, Product, Flip, Reverse;
    ProductOf(path);
    ReverseOf(path);
    if path == [] {
      ProductOf(Reverse(path));
    } else {
      var init, e := path[..|path| - 1], path[|path| - 1];
      ThereAndBack(quotes, c, init, e.from);
      FlipIsEdge(quotes, e);
      FlipEnds(e);
      Prepend(Edges(quotes), Flip(e), Reverse(init), c);
      Pairwise(Product(init), e.rate, Flip(e).rate, Product(Reverse(init)));
    }
  }

  lemma FlipEnds(e: Edge)
    ensures Flip(e).from == e.to && Flip(e).to == e.from
  {
  }

  lemma ReverseOf(path: seq<Edge>)
    ensures Reverse(path) == if path == [] then [] else [Flip(path[|path| - 1])] + Reverse(path[..|path| - 1])
  {
  }

  lemma ProductOf(path: seq<Edge>)
    ensures Product(path) == if path == [] then 1.0 else Product(path[..|path| - 1]) * path[|path| - 1].rate
  {
  }

  lemma Pairwise(a: real, r: real, s: real, b: real)
    requires a > 0.0 && r > 0.0 && a * b == 1.0 && r * s == 1.0
    ensures a * r > 0.0 && (a * r) * (s * b) == 1.0
  {
    assert (a * r) * (s * b) == a * (r * s) * b;
  }
}
