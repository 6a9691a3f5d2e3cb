/** The serialized, append-only state chain of one prospective recommendation. */
module Lifecycle {
  import opened Rows

  datatype Action = Buy | Sell | Abstain

  datatype Recommendation = Recommendation(
    id: nat,
    instrument: nat,
    base: string,
    quote: string,
    action: Action,
    generatedAt: int,
    target: nat,
    maturity: int)  // completion of the target's last daily session

  datatype State =
    | Abstained
    | AwaitingPortfolioAssessment
    | PortfolioIneligible
    | AwaitingOwnerDecision
    | AdmittedAwaitingEntry
    | Entered
    | ClosedUnselected
    | AdmissionRevoked
    | Cancelled
    | TargetHit
    | Invalidated
    | ExpiredAfterEntry
    | ExpiredNotActivated
    | ExpiredUnobserved
    | MissingData

  function Successors(s: State): set<State> {
    match s
    case AwaitingPortfolioAssessment => {PortfolioIneligible, AwaitingOwnerDecision, Cancelled}
    case AwaitingOwnerDecision => {AdmittedAwaitingEntry, ClosedUnselected, Cancelled}
    case AdmittedAwaitingEntry =>
      {Entered, AdmissionRevoked, ExpiredNotActivated, ExpiredUnobserved, MissingData, Cancelled}
    case Entered => {TargetHit, Invalidated, ExpiredAfterEntry, MissingData}
    case _ => {}
  }

  predicate Terminal(s: State) {
    Successors(s) == {}
  }

  predicate NeedsCoverageFact(s: State) {
    s in {ExpiredUnobserved, MissingData, Cancelled}
  }

  function Initial(rec: Recommendation): State {
    if rec.action == Abstain then Abstained else AwaitingPortfolioAssessment
  }

  /** The immutable record an event is derived from. */
  datatype SourceKind =
    | FromRecommendation | FromMember | FromAdmission | FromClosure | FromEntry | FromResult | FromCoverageFact
  datatype Source = Source(kind: SourceKind, id: nat, recommendation: nat)

  datatype Event = Event(state: State, source: Source)
  type Chain = seq<Row<Event>>

  /** One call of `transition`; `evidenceHolds` is the verdict of the source's validator. */
  datatype Request = Request(state: State, source: Source, evidenceHolds: bool, occurredAt: int)

  datatype Refusal =
    | CoverageSourceRequired | CoverageRejected | ResultSourceRequired | ExpiryRejected | IllegalTransition
  datatype Outcome = Kept(chain: Chain) | Refused(why: Refusal)

  predicate Recorded(chain: Chain, req: Request) {
    exists k :: 0 <= k < |chain| && chain[k].value == Event(req.state, req.source)
  }

  predicate Legal(rec: Recommendation, latest: Option<Row<Event>>, req: Request) {
    && (latest.Some? ==> req.state in Successors(latest.value.value.state))
    && (latest.None? ==> req.state == Initial(rec))
    && rec.generatedAt <= req.occurredAt
    && (latest.Some? ==> latest.value.at <= req.occurredAt)
  }

  function Transition(rec: Recommendation, chain: Chain, req: Request): Outcome {
    var latest := Latest(chain);
    var owned := req.source.recommendation == rec.id;
    if NeedsCoverageFact(req.state) && !(req.source.kind.FromCoverageFact? && owned) then
      Refused(CoverageSourceRequired)
    else if NeedsCoverageFact(req.state) && !req.evidenceHolds then
      Refused(CoverageRejected)
    else if Recorded(chain, req) then
      Kept(chain)
    else if latest.Some? && latest.value.value.state == req.state then
      Kept(chain)
    else if req.state.ExpiredNotActivated? && !(req.source.kind.FromResult? && owned) then
      Refused(ResultSourceRequired)
    else if req.state.ExpiredNotActivated? && !req.evidenceHolds then
      Refused(ExpiryRejected)
    else if !Legal(rec, latest, req) then
      Refused(IllegalTransition)
    else
      Kept(chain + [Row(Event(req.state, req.source), req.occurredAt)])
  }

  function Root(rec: Recommendation): Row<Event> {
    Row(Event(Initial(rec), Source(FromRecommendation, rec.id, rec.id)), rec.generatedAt)
  }

  /** Issuing a recommendation writes its root event at its own generation instant. */
  lemma InitializeWritesRoot(rec: Recommendation)
    ensures Transition(
              rec, [], Request(Initial(rec), Source(FromRecommendation, rec.id, rec.id), true, rec.generatedAt))
         == Kept([Root(rec)])
  {
    assert Latest<Event>([]).None?;
  }

  /** The shape of every stored chain: one root fixed by the action, legal successors, ordered instants. */
  ghost predicate ValidChain(rec: Recommendation, chain: Chain) {
    && chain != []
    && chain[0] == Root(rec)
    && Ordered(chain)
    && forall k :: 0 < k < |chain| ==> chain[k].value.state in Successors(chain[k - 1].value.state)
  }

  function Tail(chain: Chain): State
    requires chain != []
  {
    chain[|chain| - 1].value.state
  }

  lemma TransitionKeepsChain(rec: Recommendation, chain: Chain, req: Request)
    requires ValidChain(rec, chain)
    ensures var out := Transition(rec, chain, req);
            out.Kept? ==> ValidChain(rec, out.chain) && chain <= out.chain
  {
    LatestIsTail(chain);
  }

  /** A terminal state absorbs: no request of any kind adds a row behind it. */
  lemma TerminalAbsorbs(rec: Recommendation, chain: Chain, req: Request)
    requires ValidChain(rec, chain) && Terminal(Tail(chain))
    ensures var out := Transition(rec, chain, req); out.Kept? ==> out.chain == chain
  {
    LatestIsTail(chain);
  }

  /** The chain left by any history of calls; a refused call rolls back. */
  function Replay(rec: Recommendation, reqs: seq<Request>): (chain: Chain)
    ensures chain != []
  {
    if reqs == [] then [Root(rec)]
    else
      var before := Replay(rec, reqs[..|reqs| - 1]);
      var out := Transition(rec, before, reqs[|reqs| - 1]);
      if out.Kept? then out.chain else before
  }

  lemma {:induction false} ReplayValid(rec: Recommendation, reqs: seq<Request>)
    ensures ValidChain(rec, Replay(rec, reqs))
  {
    if reqs != [] {
      ReplayValid(rec, reqs[..|reqs| - 1]);
      TransitionKeepsChain(rec, Replay(rec, reqs[..|reqs| - 1]), reqs[|reqs| - 1]);
    }
  }

  lemma {:induction false} ReplayExtends(rec: Recommendation, reqs: seq<Request>, more: seq<Request>)
    ensures Replay(rec, reqs) <= Replay(rec, reqs + more)
  {
    if more == [] {
      assert reqs + more == reqs;
    } else {
      hide Transition, ValidChain;
      var all := reqs + more;
      var init := all[..|all| - 1];
      assert init == reqs + more[..|more| - 1];
      ReplayExtends(rec, reqs, more[..|more| - 1]);
      ReplayValid(rec, init);
      TransitionKeepsChain(rec, Replay(rec, init), all[|all| - 1]);
      PrefixTransitive(Replay(rec, reqs), Replay(rec, init), Replay(rec, all));
    }
  }

  lemma PrefixTransitive(a: Chain, b: Chain, c: Chain)
    requires a <= b <= c
    ensures a <= c
  {
  }

  function Rank(s: State): nat {
    match s
    case AwaitingPortfolioAssessment => 0
    case AwaitingOwnerDecision => 1
    case AdmittedAwaitingEntry => 2
    case Entered => 3
    case _ => 4
  }

  lemma {:induction false} RankClimbs(rec: Recommendation, chain: Chain, i: nat, j: nat)
    requires ValidChain(rec, chain) && i <= j < |chain|
    ensures Rank(chain[i].value.state) + (j - i) <= Rank(chain[j].value.state)
    decreases j
  {
    if i < j {
      RankClimbs(rec, chain, i, j - 1);
      assert chain[j].value.state in Successors(chain[j - 1].value.state);
    }
  }

  /** Whatever calls are made, in whatever order, no state is ever entered twice and a chain holds
      at most five events. */
  lemma NoStateRepeats(rec: Recommendation, reqs: seq<Request>)
    ensures var chain := Replay(rec, reqs);
            && |chain| <= 5
            && forall i, j :: 0 <= i < j < |chain| ==> chain[i].value.state != chain[j].value.state
  {
    ReplayValid(rec, reqs);
    var chain := Replay(rec, reqs);
    RankClimbs(rec, chain, 0, |chain| - 1);
    forall i, j | 0 <= i < j < |chain|
      ensures chain[i].value.state != chain[j].value.state
    {
      RankClimbs(rec, chain, i, j);
    }
  }

  /** The governed part of the projection: the state of the first visible row. */
  function ProjectedState(chain: Chain, asOf: int): Option<State> {
    var row := LatestAt(chain, asOf);
    if row.Some? then Some(row.value.value.state) else None
  }

  lemma ProjectionNow(rec: Recommendation, chain: Chain, asOf: int)
    requires ValidChain(rec, chain)
    requires forall k :: 0 < k < |chain| ==> chain[k].at <= asOf
    ensures ProjectedState(chain, asOf) == if rec.generatedAt <= asOf then Some(Tail(chain)) else None
  {
    if rec.generatedAt <= asOf {
      VisibleAll(chain, asOf);
      LatestIsTail(chain);
    } else {
      var n := VisibleIsPrefix(chain, asOf);
      assert rec.generatedAt == chain[0].at;
    }
  }

  /** The past is frozen: once a later event exists, no further history changes the projection at an
      earlier instant. */
  lemma FrozenPast(rec: Recommendation, reqs: seq<Request>, more: seq<Request>, asOf: int)
    requires asOf < Latest(Replay(rec, reqs)).value.at
    ensures ProjectedState(Replay(rec, reqs + more), asOf) == ProjectedState(Replay(rec, reqs), asOf)
  {
    var before, after := Replay(rec, reqs), Replay(rec, reqs + more);
    ReplayValid(rec, reqs);
    ReplayValid(rec, reqs + more);
    ReplayExtends(rec, reqs, more);
    LatestIsTail(before);
    var tail := after[|before|..];
    assert after == before + tail;
    forall k | 0 <= k < |tail|
      ensures asOf < tail[k].at
    {
      assert after[|before| - 1].at <= after[|before| + k].at;
    }
    LaterRowsInvisible(before, tail, asOf);
  }

  /** `path` is a walk of legal transitions. */
  predicate Walk(path: seq<State>) {
    path != [] && forall k :: 0 < k < |path| ==> path[k] in Successors(path[k - 1])
  }

  ghost predicate Reaches(s: State, t: State) {
    exists path :: Walk(path) && path[0] == s && path[|path| - 1] == t
  }

  lemma StretchReaches(rec: Recommendation, chain: Chain, i: nat, j: nat)
    requires ValidChain(rec, chain) && i <= j < |chain|
    ensures Reaches(chain[i].value.state, chain[j].value.state)
  {
    var path := seq(j - i + 1, k requires 0 <= k < j - i + 1 => chain[i + k].value.state);
    assert Walk(path) by {
      forall k | 0 < k < |path|
        ensures path[k] in Successors(path[k - 1])
      {
        assert chain[i + k].value.state in Successors(chain[i + k - 1].value.state);
      }
    }
  }

  /** The projection at `asOf` is the state of the last row stamped no later than it. */
  lemma ProjectionIsRow(rec: Recommendation, chain: Chain, asOf: int) returns (k: nat)
    requires ValidChain(rec, chain) && rec.generatedAt <= asOf
    ensures k < |chain| && chain[k].at <= asOf
    ensures forall j :: k < j < |chain| ==> asOf < chain[j].at
    ensures ProjectedState(chain, asOf) == Some(chain[k].value.state)
  {
    var n := VisibleIsPrefix(chain, asOf);
    assert chain[0].at == rec.generatedAt;
    LatestIsTail(chain[..n]);
    k := n - 1;
  }

  lemma ChainProjectionReaches(rec: Recommendation, chain: Chain, t: int, u: int)
    requires ValidChain(rec, chain) && rec.generatedAt <= t <= u
    ensures ProjectedState(chain, t).Some? && ProjectedState(chain, u).Some?
    ensures Reaches(ProjectedState(chain, t).value, ProjectedState(chain, u).value)
  {
    var m := ProjectionIsRow(rec, chain, t);
    var n := ProjectionIsRow(rec, chain, u);
    StretchReaches(rec, chain, m, n);
  }

  /** Projections at two instants are always related by legal transitions. */
  lemma ProjectionReaches(rec: Recommendation, reqs: seq<Request>, t: int, u: int)
    requires rec.generatedAt <= t <= u
    ensures var chain := Replay(rec, reqs);
            && ProjectedState(chain, t).Some? && ProjectedState(chain, u).Some?
            && Reaches(ProjectedState(chain, t).value, ProjectedState(chain, u).value)
  {
    ReplayValid(rec, reqs);
    ChainProjectionReaches(rec, Replay(rec, reqs), t, u);
  }

  /** The stored chain of one recommendation, extended in place. */
  class StateChain {
    const rec: Recommendation
    var rows: Chain

    /** `initialize`: the root is the first row. */
    constructor (rec: Recommendation)
      ensures this.rec == rec && rows == [Root(rec)] && ValidChain(rec, rows)
    {
      this.rec := rec;
      rows := [Root(rec)];
    }

    /** `transition`; a refusal leaves the chain alone, and whatever is accepted keeps its shape. */
    method Extend(req: Request) returns (accepted: bool)
      requires ValidChain(rec, rows)
      modifies `rows
      ensures accepted <==> Transition(rec, old(rows), req).Kept?
      ensures rows == if accepted then Transition(rec, old(rows), req).chain else old(rows)
      ensures ValidChain(rec, rows) && old(rows) <= rows && |rows| <= |old(rows)| + 1
    {
      TransitionKeepsChain(rec, rows, req);
      var latest := Latest(rows);
      var owned := req.source.recommendation == rec.id;
      if NeedsCoverageFact(req.state) {
        if !(req.source.kind.FromCoverageFact? && owned) || !req.evidenceHolds {
          return false;
        }
      }
      if Recorded(rows, req) || (latest.Some? && latest.value.value.state == req.state) {
        return true;
      }
      if req.state.ExpiredNotActivated? {
        if !(req.source.kind.FromResult? && owned) || !req.evidenceHolds {
          return false;
        }
      }
      if !Legal(rec, latest, req) {
        return false;
      }
      rows := rows + [Row(Event(req.state, req.source), req.occurredAt)];
      accepted := true;
    }
  }
}
