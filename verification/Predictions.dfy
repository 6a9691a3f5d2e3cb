/** How the one resolution of a target becomes a row for each forecast and recommendation made about it. */
module Predictions {
  import opened Rows
  import opened PaperTrading
  import opened PaperTheorems
  import Scoring

  datatype Action = Abstain | Buy | Sell

  datatype Prediction =
    | Forecast(p: Scoring.Probabilities)
    | Recommendation(p: Scoring.Probabilities, action: Action)

  /** A forecast's or a recommendation's resolution; a forecast has no hit. */
  datatype Derived = Derived(
    outcome: Direction, midpoint: Option<int>, change: Option<int>, brier: Option<int>, hit: Option<bool>,
    sessions: nat, resolvedAt: int)

  /** The target's resolution, and the rows derived from it by prediction. */
  datatype Book = Book(shared: Option<Resolution>, rows: map<nat, Derived>)

  const NoRows: Book := Book(None, map[])

  /** A call that wants the target resolved: for one prediction, or for a paper trade that derives no row here. */
  datatype Ask = Ask(id: Option<nat>, at: int)

  predicate Scored(d: Direction) {
    !d.Missing?
  }

  function OutcomeOf(d: Direction): Scoring.Outcome
    requires Scored(d)
  {
    match d case Up => Scoring.Up case Neutral => Scoring.Neutral case Down => Scoring.Down
  }

  /** The row `derive_resolution` builds. */
  function Derive(w: Evidence, prediction: Prediction, shared: Resolution, now: int): Derived {
    var scored := Scored(shared.outcome);
    var hit :=
      if prediction.Forecast? || !scored || prediction.action.Abstain? then None
      else Some(shared.outcome == if prediction.action.Buy? then Up else Down);
    Derived(
      shared.outcome, shared.midpoint, shared.change,
      if scored then Some(Scoring.Brier(prediction.p, OutcomeOf(shared.outcome))) else None,
      hit, if scored then w.sessions else 0, now)
  }

  /** What the two tables check when the row is saved. */
  predicate Accepted(prediction: Prediction, row: Derived) {
    match prediction
    case Forecast(_) =>
      if Scored(row.outcome) then row.midpoint.Some? && row.change.Some? && row.brier.Some?
      else row.midpoint.None? && row.change.None? && row.brier.None?
    case Recommendation(_, action) =>
      if action.Abstain? then row.hit.None? else Scored(row.outcome) ==> row.hit.Some?
  }

  /** `resolve_forecast` and `resolve_recommendation` for predictions about one target: an existing row stands, and a
      refused one rolls everything back. */
  function Answer(w: Evidence, predictions: map<nat, Prediction>, b: Book, ask: Ask): Book {
    if ask.id.Some? && (ask.id.value !in predictions || ask.id.value in b.rows) then b
    else
      var stored := ResolveTarget(w, b.shared, ask.at);
      var shared := SharedAt(stored, ask.at);
      if stored != b.shared && !ValidResolution(w, stored.value) then b
      else if shared.None? || ask.id.None? then b.(shared := stored)
      else
        var prediction := predictions[ask.id.value];
        var row := Derive(w, prediction, shared.value, ask.at);
        if Accepted(prediction, row) then Book(stored, b.rows[ask.id.value := row]) else b
  }

  function AnswerAll(w: Evidence, predictions: map<nat, Prediction>, b: Book, asks: seq<Ask>): Book {
    if asks == [] then b
    else Answer(w, predictions, AnswerAll(w, predictions, b, asks[..|asks| - 1]), asks[|asks| - 1])
  }

  predicate InOrder(asks: seq<Ask>) {
    forall i, j :: 0 <= i < j < |asks| ==> asks[i].at <= asks[j].at
  }

  /** An ask that can be answered: about a known prediction, behind the target's maturity. */
  predicate Mature(w: Evidence, predictions: map<nat, Prediction>, ask: Ask) {
    (ask.id.Some? ==> ask.id.value in predictions) && MaturityAt(w) <= ask.at
  }

  /** The first ask that can be answered. */
  function FirstMature(w: Evidence, predictions: map<nat, Prediction>, asks: seq<Ask>): Option<int> {
    if asks == [] then None
    else
      var before := FirstMature(w, predictions, asks[..|asks| - 1]);
      if before.Some? then before
      else if Mature(w, predictions, asks[|asks| - 1]) then Some(asks[|asks| - 1].at) else None
  }

  /** The first of them about prediction `id`. */
  function FirstAbout(w: Evidence, predictions: map<nat, Prediction>, asks: seq<Ask>, id: nat): Option<int> {
    if asks == [] then None
    else
      var before := FirstAbout(w, predictions, asks[..|asks| - 1], id);
      if before.Some? then before
      else if asks[|asks| - 1].id == Some(id) && Mature(w, predictions, asks[|asks| - 1]) then Some(asks[|asks| - 1].at)
      else None
  }

  /** What the tables hold after `asks`, told without the runs: the first ask behind maturity fixes the outcome for
      every prediction, and each prediction's own first ask derives its row from that. */
  ghost predicate Told(w: Evidence, predictions: map<nat, Prediction>, asks: seq<Ask>, b: Book) {
    var first := FirstMature(w, predictions, asks);
    && b.shared == (if first.Some? then ResolveTarget(w, None, first.value) else None)
    && (b.shared.Some? <==> first.Some?)
    && (forall id :: id in b.rows <==> FirstAbout(w, predictions, asks, id).Some?)
    && (forall id :: id in b.rows ==>
          && id in predictions && b.shared.Some?
          && b.rows[id] == Derive(w, predictions[id], b.shared.value, FirstAbout(w, predictions, asks, id).value))
  }

  lemma {:induction false} FirstsAre(w: Evidence, predictions: map<nat, Prediction>, asks: seq<Ask>, id: nat)
    ensures FirstAbout(w, predictions, asks, id).Some? ==> id in predictions && FirstMature(w, predictions, asks).Some?
    ensures FirstMature(w, predictions, asks).Some? ==>
              exists k :: 0 <= k < |asks| && Mature(w, predictions, asks[k])
                  && asks[k].at == FirstMature(w, predictions, asks).value
  {
    if asks != [] {
      var n := |asks| - 1;
      FirstsAre(w, predictions, asks[..n], id);
      if FirstMature(w, predictions, asks[..n]).Some? {
        var k :| 0 <= k < n && Mature(w, predictions, asks[..n][k])
            && asks[..n][k].at == FirstMature(w, predictions, asks[..n]).value;
        assert asks[k] == asks[..n][k];
      } else {
        assert asks[n].at == asks[n].at;
      }
    }
  }

  /** Whatever the target resolved to, the tables accept what is derived from it. */
  lemma DerivedAccepted(w: Evidence, prediction: Prediction, shared: Resolution, now: int)
    requires ValidResolution(w, shared)
    ensures Accepted(prediction, Derive(w, prediction, shared, now))
  {
    hide Scoring.Brier;
  }

  lemma AnswerTold(w: Evidence, predictions: map<nat, Prediction>, asks: seq<Ask>, b: Book)
    requires asks != [] && InOrder(asks) && Told(w, predictions, asks[..|asks| - 1], b)
    ensures Told(w, predictions, asks, Answer(w, predictions, b, asks[|asks| - 1]))
  {
    hide ResolveTarget, ValidResolution, Derive, Accepted, MaturityAt;
    var n := |asks| - 1;
    var ask := asks[n];
    if ask.id.Some? { FirstsAre(w, predictions, asks[..n], ask.id.value); }
    var first := FirstMature(w, predictions, asks[..n]);
    if first.Some? {
      StoredResolution(w, None, first.value);
      assert first.value <= ask.at by { FirstBefore(w, predictions, asks); }
    }
    StoredResolution(w, b.shared, ask.at);
    var stored := ResolveTarget(w, b.shared, ask.at);
    if stored.Some? && ask.id.Some? && ask.id.value in predictions {
      DerivedAccepted(w, predictions[ask.id.value], stored.value, ask.at);
    }
  }

  lemma FirstBefore(w: Evidence, predictions: map<nat, Prediction>, asks: seq<Ask>)
    requires asks != [] && InOrder(asks)
    ensures var first := FirstMature(w, predictions, asks[..|asks| - 1]);
            first.Some? ==> first.value <= asks[|asks| - 1].at
  {
    var n := |asks| - 1;
    FirstsAre(w, predictions, asks[..n], 0);
    if FirstMature(w, predictions, asks[..n]).Some? {
      var k :| 0 <= k < n && asks[..n][k].at == FirstMature(w, predictions, asks[..n]).value;
      assert asks[k] == asks[..n][k];
    }
  }

  /** One outcome per target: over every rising sequence of asks, in any order of predictions, the first one behind
      maturity fixes the resolution and every row is derived from it. */
  lemma {:induction false} OneOutcomePerTarget(w: Evidence, predictions: map<nat, Prediction>, asks: seq<Ask>)
    requires InOrder(asks)
    ensures Told(w, predictions, asks, AnswerAll(w, predictions, NoRows, asks))
  {
    hide Answer;
    if asks == [] {
      NothingTold(w, predictions);
    } else {
      OneOutcomePerTarget(w, predictions, asks[..|asks| - 1]);
      AnswerTold(w, predictions, asks, AnswerAll(w, predictions, NoRows, asks[..|asks| - 1]));
    }
  }

  lemma NothingTold(w: Evidence, predictions: map<nat, Prediction>)
    ensures Told(w, predictions, [], NoRows)
  {
  }

  /** So all rows of a target tell the same outcome and move; opposite recommendations are never both right, and both
      wrong exactly when the market stayed in its band; only what was scored carries a score. */
  lemma RowsAgree(w: Evidence, predictions: map<nat, Prediction>, asks: seq<Ask>, i: nat, j: nat)
    requires InOrder(asks)
    requires var rows := AnswerAll(w, predictions, NoRows, asks).rows; i in rows && j in rows
    ensures i in predictions && j in predictions
    ensures var rows := AnswerAll(w, predictions, NoRows, asks).rows;
            var a, b := rows[i], rows[j];
            && a.outcome == b.outcome && a.midpoint == b.midpoint && a.change == b.change
            && (a.brier.Some? <==> Scored(a.outcome)) && (b.brier.Some? <==> Scored(a.outcome))
            && (predictions[i].p == predictions[j].p ==> a.brier == b.brier)
            && (predictions[i].Recommendation? && predictions[i].action.Buy?
                && predictions[j].Recommendation? && predictions[j].action.Sell? ==>
                  && (a.hit.Some? <==> Scored(a.outcome)) && (b.hit.Some? <==> Scored(a.outcome))
                  && !(a.hit == Some(true) && b.hit == Some(true))
                  && (a.hit == Some(false) && b.hit == Some(false) <==> a.outcome.Neutral?))
  {
    hide Answer, AnswerAll, ResolveTarget, FirstMature, FirstAbout, Scoring.Brier;
    OneOutcomePerTarget(w, predictions, asks);
  }

  /** The outcome is missing exactly when the horizon candle was not there at the first ask behind maturity; one that
      arrives later changes nothing. */
  lemma MissingStays(w: Evidence, predictions: map<nat, Prediction>, asks: seq<Ask>)
    requires InOrder(asks)
    ensures var first := FirstMature(w, predictions, asks);
            var shared := AnswerAll(w, predictions, NoRows, asks).shared;
            && (shared.Some? <==> first.Some?)
            && (shared.Some? ==>
                  && shared.value.resolvedAt == first.value
                  && (shared.value.outcome.Missing? <==> EligibleEndpoint(w, first.value).None?))
  {
    hide Answer, AnswerAll, FirstMature, FirstAbout, EligibleEndpoint;
    OneOutcomePerTarget(w, predictions, asks);
    var first := FirstMature(w, predictions, asks);
    if first.Some? { ResolvedAt(w, first.value); }
  }

  lemma ResolvedAt(w: Evidence, at: int)
    ensures var r := ResolveTarget(w, None, at);
            r.Some? ==> r.value.resolvedAt == at && (r.value.outcome.Missing? <==> EligibleEndpoint(w, at).None?)
  {
    hide EligibleEndpoint;
  }

  /** No later call changes or drops a row. */
  lemma {:induction false} RowsStay(w: Evidence, predictions: map<nat, Prediction>, b: Book, asks: seq<Ask>, id: nat)
    requires id in b.rows
    ensures id in AnswerAll(w, predictions, b, asks).rows && AnswerAll(w, predictions, b, asks).rows[id] == b.rows[id]
  {
    hide ResolveTarget, Derive, Accepted;
    if asks != [] {
      RowsStay(w, predictions, b, asks[..|asks| - 1], id);
    }
  }

  // ---------- as it runs ----------

  /** The stored rows of one target and of the predictions about it. */
  class TargetRows {
    var shared: Option<Resolution>
    var rows: map<nat, Derived>

    constructor ()
      ensures Contents() == NoRows
    {
      shared, rows := None, map[];
    }

    function Contents(): Book
      reads this
    {
      Book(shared, rows)
    }

    /** `derive_resolution` for a prediction without a row. */
    method DeriveResolution(w: Evidence, id: nat, prediction: Prediction, now: int) returns (row: Option<Derived>)
      requires id !in rows
      modifies this
      ensures Contents() == Answer(w, map[id := prediction], old(Contents()), Ask(Some(id), now))
      ensures row == if id in rows then Some(rows[id]) else None
    {
      hide MaturityAt, Scoring.Brier, ValidResolution;
      row := None;
      var before := shared;
      shared := ResolveTarget(w, shared, now);
      if shared != before && !ValidResolution(w, shared.value) {
        shared := before;
        return;
      }
      if shared.None? || shared.value.resolvedAt > now {
        return;
      }
      var r := shared.value;
      var scored := Scored(r.outcome);
      var brier := None;
      if scored {
        brier := Some(Scoring.Brier(prediction.p, OutcomeOf(r.outcome)));
      }
      var hit := None;
      if prediction.Recommendation? && scored && !prediction.action.Abstain? {
        hit := Some(r.outcome == if prediction.action.Buy? then Up else Down);
      }
      var made := Derived(r.outcome, r.midpoint, r.change, brier, hit, if scored then w.sessions else 0, now);
      if Accepted(prediction, made) {
        rows := rows[id := made];
        row := Some(made);
      } else {
        shared := before;
      }
    }

    /** `resolve_forecast` and `resolve_recommendation`: an existing row is returned as it is. */
    method ResolvePrediction(w: Evidence, predictions: map<nat, Prediction>, id: nat, now: int)
        returns (row: Option<Derived>)
      modifies this
      ensures Contents() == Answer(w, predictions, old(Contents()), Ask(Some(id), now))
      ensures row == if id in rows then Some(rows[id]) else None
    {
      hide ResolveTarget, ValidResolution, Derive, Accepted;
      if id in rows {
        return Some(rows[id]);
      }
      if id !in predictions {
        return None;
      }
      row := DeriveResolution(w, id, predictions[id], now);
    }
  }
}
