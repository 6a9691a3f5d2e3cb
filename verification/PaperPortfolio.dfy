/** The portfolio service as it runs: tables updated row by row in loops, proved to perform the steps of
    module Portfolio and hence to keep its invariant. */
module PaperPortfolio {
  import opened Rows
  import opened Lifecycle
  import opened Accounts
  import opened Risk
  import opened Portfolio
  import opened PortfolioSafety
  import opened PortfolioRuns

  lemma ToSetGrows(ids: seq<nat>, k: nat)
    requires k < |ids|
    ensures ToSet(ids[..k + 1]) == ToSet(ids[..k]) + {ids[k]}
    ensures Distinct(ids) ==> ids[k] !in ToSet(ids[..k])
  {
    assert ids[..k + 1] == ids[..k] + [ids[k]];
  }

  function Lookup(legs: map<Leg, int>, leg: Leg): int {
    if leg in legs then legs[leg] else 0
  }

  function AddTo(legs: map<Leg, int>, leg: Leg, risk: int): map<Leg, int> {
    legs[leg := Lookup(legs, leg) + risk]
  }

  /** The running sums stand `ids` above where they started. */
  ghost predicate Summed(
    accounts: Ledger, total0: int, legs0: map<Leg, int>, ids: set<nat>, total: int, legs: map<Leg, int>) {
    && total == total0 + Usage(accounts, None, ids)
    && forall leg: Leg :: Lookup(legs, leg) == Lookup(legs0, leg) + Usage(accounts, Some(leg), ids)
  }

  lemma SumNone(accounts: Ledger, total0: int, legs0: map<Leg, int>)
    ensures Summed(accounts, total0, legs0, {}, total0, legs0) && LegsOf(accounts, {}) == {}
  {
  }

  lemma SumOne(
    accounts: Ledger, total0: int, legs0: map<Leg, int>, ids: set<nat>, total: int, legs: map<Leg, int>, id: nat)
    requires Summed(accounts, total0, legs0, ids, total, legs)
    requires id !in ids && id in accounts && accounts[id].size.Some?
    ensures var a := accounts[id];
            var risk := a.size.value;
            Summed(accounts, total0, legs0, ids + {id}, total + risk,
                   if a.rec.action == Abstain then legs
                   else AddTo(AddTo(legs, Legs(a.rec)[0], risk), Legs(a.rec)[1], risk))
  {
    assert ids + {id} - {id} == ids;
    UsageRemove(accounts, None, ids + {id}, id);
    forall leg: Leg
      ensures Usage(accounts, Some(leg), ids + {id}) ==
          Usage(accounts, Some(leg), ids) + Weight(accounts, Some(leg), id)
    {
      UsageRemove(accounts, Some(leg), ids + {id}, id);
    }
  }

  lemma KeysOne(accounts: Ledger, legs0: map<Leg, int>, ids: set<nat>, legs: map<Leg, int>, id: nat, risk: int)
    requires legs.Keys == legs0.Keys + LegsOf(accounts, ids) && id in accounts
    ensures var pair := Legs(accounts[id].rec);
            (if pair == [] then legs else AddTo(AddTo(legs, pair[0], risk), pair[1], risk)).Keys
              == legs0.Keys + LegsOf(accounts, ids + {id})
  {
    var pair := Legs(accounts[id].rec);
    assert LegsOf(accounts, ids + {id}) == LegsOf(accounts, ids) + (set leg | leg in pair);
    if pair != [] {
      assert (set leg | leg in pair) == {pair[0], pair[1]};
    }
  }

  /** Sums started from nothing are exactly a frozen snapshot. */
  lemma SumsAreSnapshot(b: Book, ids: set<nat>, total: int, legs: map<Leg, int>)
    requires Summed(b.accounts, 0, map[], ids, total, legs) && legs.Keys == LegsOf(b.accounts, ids)
    ensures Snapshot(ids, total, legs) == SnapshotOf(b, ids)
  {
    forall leg | leg in legs
      ensures legs[leg] == Usage(b.accounts, Some(leg), ids)
    {
      assert Lookup(legs, leg) == Lookup(map[], leg) + Usage(b.accounts, Some(leg), ids);
    }
    assert legs == SnapshotOf(b, ids).legs;
  }

  lemma CapsByLookup(legs: map<Leg, int>)
    ensures (forall leg :: leg in legs ==> legs[leg] <= LEG_CAP) <==> forall leg: Leg :: Lookup(legs, leg) <= LEG_CAP
  {
    if forall leg: Leg :: Lookup(legs, leg) <= LEG_CAP {
      forall leg | leg in legs
        ensures legs[leg] <= LEG_CAP
      {
        assert Lookup(legs, leg) <= LEG_CAP;
      }
    }
  }

  // ---------- partial effects of a loop over members ----------

  function CloseSome(accounts: Ledger, done: set<nat>, i: nat, now: int): Ledger {
    map id | id in accounts :: CloseAccount(accounts[id], id in done, i, now)
  }

  lemma CloseNone(accounts: Ledger, i: nat, now: int)
    ensures CloseSome(accounts, {}, i, now) == accounts
  {
    hide StateNow;
  }

  /** One more member visited, whose own row the loop has not touched yet. */
  lemma CloseOne(accounts: Ledger, done: set<nat>, i: nat, now: int, id: nat)
    requires id in accounts && id !in done
    ensures CloseSome(accounts, done, i, now)[id] == accounts[id]
    ensures CloseSome(accounts, done + {id}, i, now)
         == CloseSome(accounts, done, i, now)[id := CloseAccount(accounts[id], true, i, now)]
  {
    hide StateNow;
  }

  lemma CloseAll(b: Book, i: nat, reason: string, superseding: Option<nat>)
    requires i < |b.cohorts|
    ensures Portfolio.CloseCohort(b, i, reason, superseding).accounts
         == CloseSome(b.accounts, ToSet(b.cohorts[i].members), i, b.clock)
  {
    hide StateNow;
  }

  function SelectSome(accounts: Ledger, selected: set<nat>, done: set<nat>, i: nat, now: int): Ledger {
    map id | id in accounts :: SelectAccount(accounts[id], id in done, id in selected, i, now)
  }

  function AdmitSome(accounts: Ledger, done: set<nat>, now: int): Ledger {
    map id | id in accounts :: if id in done then Admit(accounts[id], now) else accounts[id]
  }

  lemma AdmitOne(accounts: Ledger, done: set<nat>, now: int, id: nat)
    requires id in accounts && id !in done
    ensures AdmitSome(accounts, {}, now) == accounts
    ensures AdmitSome(accounts, done, now)[id] == accounts[id]
    ensures AdmitSome(accounts, done + {id}, now) == AdmitSome(accounts, done, now)[id := Admit(accounts[id], now)]
  {
  }

  lemma AdmittedAll(accounts: Ledger, selected: set<nat>, i: nat, now: int)
    ensures AdmitSome(accounts, {}, now) == accounts
    ensures SelectSome(accounts, selected, {}, i, now) == AdmitSome(accounts, selected, now)
  {
    hide StateNow;
  }

  lemma SelectOne(accounts: Ledger, selected: set<nat>, done: set<nat>, i: nat, now: int, id: nat)
    requires id in accounts && id !in done
    ensures SelectSome(accounts, selected, done, i, now)[id] ==
              if id in selected then Admit(accounts[id], now) else accounts[id]
    ensures SelectSome(accounts, selected, done + {id}, i, now)
         == SelectSome(accounts, selected, done, i, now)[id :=
             SelectAccount(accounts[id], true, id in selected, i, now)]
  {
    hide StateNow;
  }

  lemma SelectedAll(b: Book, i: nat, selected: set<nat>, mode: Mode)
    requires i < |b.cohorts|
    ensures Selecting(b, i, selected, mode).accounts
         == SelectSome(b.accounts, selected, ToSet(b.cohorts[i].members), i, b.clock)
  {
    hide StateNow;
  }

  lemma SameStateNow(a: Account, now: int)
    ensures StateNow(Admit(a, now), now) == StateNow(a, now)
  {
  }

  // ---------- the assessment loop ----------

  lemma RejectNone(b: Book)
    ensures Reject(b, {}) == b
  {
    assert Reject(b, {}).accounts == b.accounts;
  }

  lemma RejectOne(b: Book, done: set<nat>, id: nat)
    requires id in b.accounts
    ensures id !in done ==> Reject(b, done).accounts[id] == b.accounts[id]
    ensures id !in done ==>
              Reject(b, done + {id}).accounts
              == Reject(b, done).accounts[id :=
                  Marked(b.accounts[id], PortfolioIneligible, FromRecommendation, id, b.clock)]
    ensures id in done ==> done + {id} == done
  {
  }

  /** Rejections do not change what makes another recommendation eligible. */
  lemma RejectLeavesOthers(b: Book, done: set<nat>, id: nat, generatedAt: int)
    requires AccountsOk(b) && AllPending(b, done) && id in b.accounts
    ensures Eligible(Reject(b, done), id, generatedAt) == Eligible(b, id, generatedAt)
    ensures InSomeCohort(Reject(b, done), id) == InSomeCohort(b, id)
    ensures Pending(Reject(b, done), id) <==> Pending(b, id) && id !in done
  {
    var after := Reject(b, done);
    RejectShape(b, done);
    assert forall t :: TargetOpen(after, t) == TargetOpen(b, t);
    if id in done {
      ReadAccount(after.accounts[id], b.clock);
      assert End(after.accounts[id]) == Some(PortfolioIneligible);
    }
  }

  /** One more recommendation of the batch. */
  lemma BatchOne(b: Book, ids: seq<nat>, k: nat, generatedAt: int)
    requires k < |ids|
    ensures Ineligible(b, ids[..k + 1], generatedAt)
         == Ineligible(b, ids[..k], generatedAt)
            + (if Pending(b, ids[k]) && !Eligible(b, ids[k], generatedAt) then {ids[k]} else {})
    ensures Candidates(b, ids[..k + 1], generatedAt)
         == Candidates(b, ids[..k], generatedAt) + (if Candidate(b, ids[k], generatedAt) then [ids[k]] else [])
  {
    hide Eligible, Pending, InSomeCohort;
    ToSetGrows(ids, k);
    assert ids[..k + 1][..k] == ids[..k];
  }

  lemma BatchNone(b: Book, ids: seq<nat>, generatedAt: int)
    ensures Reject(b, Ineligible(b, ids[..0], generatedAt)) == b && Candidates(b, ids[..0], generatedAt) == []
  {
    hide Eligible, Pending;
    assert Ineligible(b, ids[..0], generatedAt) == {};
    RejectNone(b);
  }

  /** What one pass of the loop does, read off the ledger as the earlier passes left it. */
  lemma BatchStep(b: Book, ids: seq<nat>, k: nat, generatedAt: int)
    requires Inv(b) && k < |ids| && ids[k] in b.accounts
    ensures var id := ids[k];
            var done := Ineligible(b, ids[..k], generatedAt);
            var now := Reject(b, done);
            && id in now.accounts
            && Reject(b, Ineligible(b, ids[..k + 1], generatedAt)) ==
                 (if Pending(now, id) && !Eligible(now, id, generatedAt)
                  then now.(accounts := now.accounts[id :=
                      Marked(now.accounts[id], PortfolioIneligible, FromRecommendation, id, now.clock)])
                  else now)
            && Candidates(b, ids[..k + 1], generatedAt) ==
                 Candidates(b, ids[..k], generatedAt)
                 + (if Pending(now, id) && Eligible(now, id, generatedAt) && !InSomeCohort(now, id) then [id] else [])
  {
    hide *;
    var id := ids[k];
    var done := Ineligible(b, ids[..k], generatedAt);
    StepFacts(b, ids, k, generatedAt);
    BatchOne(b, ids, k, generatedAt);
    RejectStep(b, done, id);
    if id in done || !(Pending(b, id) && !Eligible(b, id, generatedAt)) {
      assert Ineligible(b, ids[..k + 1], generatedAt) == done;
    }
  }

  /** The pass judges the recommendation as the untouched ledger would, unless it was rejected before. */
  lemma StepFacts(b: Book, ids: seq<nat>, k: nat, generatedAt: int)
    requires Inv(b) && k < |ids| && ids[k] in b.accounts
    ensures var id := ids[k];
            var done := Ineligible(b, ids[..k], generatedAt);
            var now := Reject(b, done);
            && id in now.accounts
            && (Candidate(b, id, generatedAt) <==>
                  Pending(now, id) && Eligible(now, id, generatedAt) && !InSomeCohort(now, id))
            && (Pending(now, id) && !Eligible(now, id, generatedAt) <==>
                  id !in done && Pending(b, id) && !Eligible(b, id, generatedAt))
  {
    var id := ids[k];
    var done := Ineligible(b, ids[..k], generatedAt);
    assert AccountsOk(b);
    hide Eligible, Pending, Inv, Ineligible, Candidates, InSomeCohort, AccountsOk, AllPending, Reject, ToSet;
    BatchSplits(b, ids[..k], generatedAt);
    RejectLeavesOthers(b, done, id, generatedAt);
    RejectStep(b, done, id);
    DoneAreIneligible(b, ids, k, generatedAt);
  }

  lemma RejectStep(b: Book, done: set<nat>, id: nat)
    requires id in b.accounts
    ensures var now := Reject(b, done);
            && id in now.accounts
            && (id !in done ==>
                  Reject(b, done + {id}) ==
                    now.(accounts := now.accounts[id :=
                        Marked(now.accounts[id], PortfolioIneligible, FromRecommendation, id, now.clock)]))
  {
    hide Marked;
    RejectOne(b, done, id);
  }

  lemma DoneAreIneligible(b: Book, ids: seq<nat>, k: nat, generatedAt: int)
    requires k < |ids| && ids[k] in b.accounts
    ensures ids[k] in Ineligible(b, ids[..k], generatedAt) ==>
              Pending(b, ids[k]) && !Eligible(b, ids[k], generatedAt) && !Candidate(b, ids[k], generatedAt)
  {
    hide Eligible, Pending, InSomeCohort;
  }

  function OpenSome(accounts: Ledger, done: set<nat>, n: nat, now: int): Ledger {
    map id | id in accounts ::
      if id in done then Marked(accounts[id], AwaitingOwnerDecision, FromMember, n, now) else accounts[id]
  }

  lemma OpenOne(accounts: Ledger, done: set<nat>, n: nat, now: int, id: nat)
    requires id in accounts && id !in done
    ensures OpenSome(accounts, done, n, now)[id] == accounts[id]
    ensures OpenSome(accounts, done + {id}, n, now)
         == OpenSome(accounts, done, n, now)[id := Marked(accounts[id], AwaitingOwnerDecision, FromMember, n, now)]
  {
  }

  lemma OpenNone(accounts: Ledger, n: nat, now: int)
    ensures OpenSome(accounts, {}, n, now) == accounts
  {
  }

  lemma OpenedAs(b: Book, picked: seq<nat>, generatedAt: int, base: set<nat>)
    requires picked != [] && forall id :: id in picked ==> id in b.accounts
    ensures var after := Portfolio.OpenCohort(b, picked, generatedAt, base);
            && after.clock == b.clock && after.activation == b.activation
            && after.cohorts == b.cohorts
                + [Cohort(picked, generatedAt, MinDeadline(b, picked), SnapshotOf(b, base), [], None)]
            && after.accounts == OpenSome(b.accounts, ToSet(picked), |b.cohorts|, b.clock)
  {
    hide Marked, SnapshotOf, MinDeadline;
  }

  lemma BaseIsSized(b: Book, ids: seq<nat>)
    requires AccountsOk(b) && ToSet(ids) <= Active(b)
    ensures forall id :: id in ids ==> id in b.accounts && b.accounts[id].size.Some?
  {
    ActiveByEnd(b);
    forall id | id in ids
      ensures id in b.accounts && b.accounts[id].size.Some?
    {
      assert id in ToSet(ids);
      assert Bearing(b, id);
    }
  }

  /** Closings change rows and closures only, and no cohort from `upTo` on. */
  ghost predicate ClosedBelow(b: Book, after: Book, upTo: nat) {
    && after.clock == b.clock && after.activation == b.activation
    && after.accounts.Keys == b.accounts.Keys
    && (forall id :: id in b.accounts ==> after.accounts[id].rec == b.accounts[id].rec)
    && (forall id :: id in b.accounts ==> after.accounts[id].size == b.accounts[id].size)
    && |after.cohorts| == |b.cohorts|
    && (forall j :: 0 <= j < |b.cohorts| ==> after.cohorts[j].members == b.cohorts[j].members)
    && (forall j :: upTo <= j < |b.cohorts| ==> after.cohorts[j] == b.cohorts[j])
  }

  lemma CloseBelow(b: Book, before: Book, n: nat, i: nat)
    requires i < n < |b.cohorts| && ClosedBelow(b, before, i)
    ensures ClosedBelow(b, SupersedeOne(b, before, n, i), i + 1)
  {
    hide StateNow, GivesWay;
  }

  /** Until older cohort `i` is reached it is as it was when the new cohort opened. */
  lemma {:induction false} NotYetSuperseded(b: Book, n: nat, upTo: nat)
    requires upTo <= n < |b.cohorts|
    ensures ClosedBelow(b, Supersede(b, n, upTo), upTo)
  {
    hide SupersedeOne;
    if upTo > 0 {
      NotYetSuperseded(b, n, upTo - 1);
      CloseBelow(b, Supersede(b, n, upTo - 1), n, upTo - 1);
    }
  }

  lemma SameRecsSameInstruments(b: Book, after: Book, older: Cohort, newer: Cohort)
    requires after.accounts.Keys == b.accounts.Keys
    requires forall id :: id in b.accounts ==> after.accounts[id].rec == b.accounts[id].rec
    ensures GivesWay(after, older, newer) == GivesWay(b, older, newer)
  {
  }

  /** Recommendations and sizes of `ids` are all the caps look at. */
  lemma FitsSame(accounts: Ledger, accounts': Ledger, ids: set<nat>)
    requires forall id :: id in ids ==> id in accounts && id in accounts'
    requires forall id :: id in ids ==> accounts[id].rec == accounts'[id].rec && accounts[id].size == accounts'[id].size
    ensures Fits(accounts, ids) == Fits(accounts', ids)
  {
    if Fits(accounts, ids) {
      FitsDepends(accounts, accounts', ids);
    } else if Fits(accounts', ids) {
      FitsDepends(accounts', accounts, ids);
    }
  }

  lemma CohortsReadable(b: Book)
    requires CohortsOk(b)
    ensures forall i :: 0 <= i < |b.cohorts| ==> Distinct(b.cohorts[i].members)
    ensures forall i, id :: 0 <= i < |b.cohorts| && id in b.cohorts[i].members ==> id in b.accounts
  {
    forall i | 0 <= i < |b.cohorts|
      ensures Distinct(b.cohorts[i].members)
      ensures forall id :: id in b.cohorts[i].members ==> id in b.accounts
    {
      assert CohortOk(b, b.cohorts[i]);
    }
  }

  /** After opening and superseding, the caps see the new cohort beside the base exactly as before. */
  lemma ProposalReadable(b: Book, picked: seq<nat>, generatedAt: int, base: set<nat>)
    requires Inv(b) && picked != [] && Distinct(picked) && base <= Active(b)
    requires forall id :: id in picked ==> id in b.accounts && Ready(b, id)
    ensures var n := |b.cohorts|;
            var b2 := Portfolio.OpenCohort(b, picked, generatedAt, base);
            var b3 := Supersede(b2, n, n);
            && n < |b2.cohorts| && CohortsOk(b2) && CohortsOk(b3) && b3.cohorts[n].members == picked
            && Fits(b3.accounts, base + ToSet(picked)) == Fits(b.accounts, base + ToSet(picked))
            && forall id :: id in base || id in picked ==> id in b3.accounts && b3.accounts[id].size.Some?
  {
    hide AccountOk, CohortsOk, Covered, Sealed, Portfolio.OpenCohort, Supersede, Fits, AtRisk;
    var n := |b.cohorts|;
    var b2 := Propose(b, picked, generatedAt, base);
    var b3 := Supersede(b2, n, n);
    ActiveByEnd(b);
    forall id | id in base || id in picked
      ensures id in b.accounts && id in b3.accounts && b.accounts[id].size.Some?
      ensures b3.accounts[id].rec == b.accounts[id].rec && b3.accounts[id].size == b.accounts[id].size
    {
      if id in base {
        assert Bearing(b, id);
        AtRiskByEnd(b.accounts[id], b.clock);
      }
    }
    FitsSame(b.accounts, b3.accounts, base + ToSet(picked));
  }

  lemma BatchReady(b: Book, ids: seq<nat>, generatedAt: int)
    requires Inv(b)
    ensures var b1 := Reject(b, Ineligible(b, ids, generatedAt));
            && Inv(b1)
            && forall id :: id in Candidates(b, ids, generatedAt) ==> id in b1.accounts && Ready(b1, id)
  {
    hide AccountOk, CohortsOk, Covered, Sealed, WithinCaps;
    BatchSplits(b, ids, generatedAt);
    RejectShape(b, Ineligible(b, ids, generatedAt));
    RejectInv(b, Reject(b, Ineligible(b, ids, generatedAt)), Ineligible(b, ids, generatedAt));
    forall id | id in Candidates(b, ids, generatedAt)
      ensures Ready(Reject(b, Ineligible(b, ids, generatedAt)), id)
    {
      assert Ready(b, id);
    }
  }

  lemma DistinctTogether(a: seq<nat>, b: seq<nat>)
    requires Distinct(a) && Distinct(b) && forall id :: id in a ==> id !in b
    ensures Distinct(a + b)
  {
    forall i, j | 0 <= i < j < |a + b|
      ensures (a + b)[i] != (a + b)[j]
    {
      if i < |a| <= j { assert a[i] in a && b[j - |a|] in b; }
    }
  }

  function Without(ids: seq<nat>, drop: seq<nat>): (r: seq<nat>)
    ensures forall id :: id in r <==> id in ids && id !in drop
    ensures Distinct(ids) ==> Distinct(r)
  {
    if ids == [] then []
    else
      var rest := Without(ids[..|ids| - 1], drop);
      var id := ids[|ids| - 1];
      assert forall x :: x in ids <==> x in ids[..|ids| - 1] || x == id;
      if id in drop then rest else rest + [id]
  }

  class PaperPortfolio {
    var clock: int
    var activation: Option<int>
    var accounts: Ledger
    var cohorts: seq<Cohort>

    function Contents(): Book
      reads this
    {
      Book(clock, activation, accounts, cohorts)
    }

    /** `_capacity_usage`: `complete` is false when a recommendation has no size yet. */
    method CapacityUsage(ids: seq<nat>, total0: int, legs0: map<Leg, int>)
      returns (complete: bool, total: int, legs: map<Leg, int>)
      requires Distinct(ids)
      ensures complete == forall id :: id in ids ==> id in accounts && accounts[id].size.Some?
      ensures complete ==> Summed(accounts, total0, legs0, ToSet(ids), total, legs)
      ensures complete ==> legs.Keys == legs0.Keys + LegsOf(accounts, ToSet(ids))
    {
      hide Summed, LegsOf, Share;
      total, legs := total0, legs0;
      SumNone(accounts, total0, legs0);
      assert ToSet(ids[..0]) == {};
      for k := 0 to |ids|
        invariant forall j :: 0 <= j < k ==> ids[j] in accounts && accounts[ids[j]].size.Some?
        invariant Summed(accounts, total0, legs0, ToSet(ids[..k]), total, legs)
        invariant legs.Keys == legs0.Keys + LegsOf(accounts, ToSet(ids[..k]))
      {
        var id := ids[k];
        if id !in accounts || accounts[id].size.None? {
          return false, total, legs;
        }
        ToSetGrows(ids, k);
        var risk := accounts[id].size.value;
        SumOne(accounts, total0, legs0, ToSet(ids[..k]), total, legs, id);
        KeysOne(accounts, legs0, ToSet(ids[..k]), legs, id, risk);
        total := total + risk;
        if accounts[id].rec.action != Abstain {
          var pair := Legs(accounts[id].rec);
          legs := AddTo(AddTo(legs, pair[0], risk), pair[1], risk);
        }
      }
      assert ids[..|ids|] == ids;
      complete := true;
    }

    /** `_fits`; a recommendation without a size aborts the transaction. */
    method FitsCaps(ids: seq<nat>) returns (complete: bool, ok: bool)
      requires Distinct(ids)
      ensures complete == forall id :: id in ids ==> id in accounts && accounts[id].size.Some?
      ensures complete ==> ok == Fits(accounts, ToSet(ids))
    {
      var total, legs;
      complete, total, legs := CapacityUsage(ids, 0, map[]);
      ok := total <= AGGREGATE_CAP && forall leg :: leg in legs ==> legs[leg] <= LEG_CAP;
      CapsByLookup(legs);
    }

    /** `_selection_fits_snapshot`: the owner's picks on top of the frozen base. */
    method FitsSnapshot(base: Snapshot, ids: seq<nat>) returns (complete: bool, ok: bool)
      requires Distinct(ids)
      ensures complete == forall id :: id in ids ==> id in accounts && accounts[id].size.Some?
      ensures complete ==> ok == SnapshotFits(Contents(), base, ToSet(ids))
    {
      var total, legs;
      complete, total, legs := CapacityUsage(ids, base.total, base.legs);
      ok := total <= AGGREGATE_CAP && forall leg :: leg in legs ==> legs[leg] <= LEG_CAP;
      CapsByLookup(legs);
    }

    /** `_active_admitted`, in whatever order the rows come back. */
    method ActiveIds() returns (ids: seq<nat>)
      ensures Distinct(ids) && ToSet(ids) == Active(Contents())
    {
      ids := [];
      var rest := accounts.Keys;
      while rest != {}
        invariant rest <= accounts.Keys && Distinct(ids)
        invariant forall id :: id in ids ==> id !in rest
        invariant forall id :: id in ids <==> id in accounts && id !in rest && AtRisk(accounts[id], clock)
        decreases rest
      {
        var id :| id in rest;
        rest := rest - {id};
        if AtRisk(accounts[id], clock) {
          ids := ids + [id];
        }
      }
    }

    method CloseCohort(i: nat, reason: string, superseding: Option<nat>)
      requires i < |cohorts| && Distinct(cohorts[i].members)
      requires forall id :: id in cohorts[i].members ==> id in accounts
      modifies this
      ensures Contents() == Portfolio.CloseCohort(old(Contents()), i, reason, superseding)
    {
      hide StateNow;
      var c := cohorts[i];
      ghost var before := accounts;
      if c.closure.None? {
        cohorts := cohorts[i := c.(closure := Some(Closure(reason, superseding, clock)))];
      }
      CloseNone(before, i, clock);
      for k := 0 to |c.members|
        invariant clock == old(clock) && activation == old(activation)
        invariant cohorts == old(cohorts)[i := if c.closure.Some? then c
                                              else c.(closure := Some(Closure(reason, superseding, clock)))]
        invariant accounts == CloseSome(before, ToSet(c.members[..k]), i, clock)
      {
        var id := c.members[k];
        ToSetGrows(c.members, k);
        CloseOne(before, ToSet(c.members[..k]), i, clock, id);
        if StateNow(accounts[id], clock) == Some(AwaitingOwnerDecision) {
          accounts := accounts[id := Marked(accounts[id], ClosedUnselected, FromClosure, i, clock)];
        } else {
          assert accounts[id := accounts[id]] == accounts;
        }
      }
      assert c.members[..|c.members|] == c.members;
      CloseAll(old(Contents()), i, reason, superseding);
    }

    /** `_record_selection`: admission events first, lifecycle events second, closure last. */
    method RecordSelection(i: nat, picked: seq<nat>, mode: Mode)
      requires i < |cohorts| && Distinct(cohorts[i].members) && Distinct(picked)
      requires forall id :: id in cohorts[i].members ==> id in accounts
      requires forall id :: id in picked ==> id in accounts
      modifies this
      ensures Contents() == Portfolio.RecordSelection(old(Contents()), i, ToSet(picked), mode)
    {
      hide StateNow;
      var c := cohorts[i];
      ghost var before, selected := accounts, ToSet(picked);
      cohorts := cohorts[i := c.(selections := c.selections + [Selection(mode, ToSet(picked), clock)])];
      AdmittedAll(before, {}, i, clock);
      for k := 0 to |picked|
        invariant clock == old(clock) && activation == old(activation)
        invariant cohorts == old(cohorts)[i := c.(selections := c.selections + [Selection(mode, selected, clock)])]
        invariant accounts == AdmitSome(before, ToSet(picked[..k]), clock)
      {
        ToSetGrows(picked, k);
        AdmitOne(before, ToSet(picked[..k]), clock, picked[k]);
        accounts := accounts[picked[k] := Admit(accounts[picked[k]], clock)];
      }
      assert picked[..|picked|] == picked;
      AdmittedAll(before, selected, i, clock);
      for k := 0 to |c.members|
        invariant clock == old(clock) && activation == old(activation)
        invariant cohorts == old(cohorts)[i := c.(selections := c.selections + [Selection(mode, selected, clock)])]
        invariant accounts == SelectSome(before, selected, ToSet(c.members[..k]), i, clock)
      {
        var id := c.members[k];
        ToSetGrows(c.members, k);
        SelectOne(before, selected, ToSet(c.members[..k]), i, clock, id);
        SameStateNow(before[id], clock);
        var state := StateNow(accounts[id], clock);
        if id in picked && state == Some(AwaitingOwnerDecision) {
          accounts := accounts[id := Marked(accounts[id], AdmittedAwaitingEntry, FromAdmission, i, clock)];
        } else if id !in picked && state == Some(AdmittedAwaitingEntry) {
          accounts := accounts[id := Marked(accounts[id], AdmissionRevoked, FromAdmission, i, clock)];
        } else {
          assert accounts[id := accounts[id]] == accounts;
        }
      }
      assert c.members[..|c.members|] == c.members;
      SelectedAll(old(Contents()), i, selected, mode);
      CloseCohort(i, "selection_recorded", None);
    }

    /** First half of `assess_recommendation_batch`: reject what cannot be decided, keep the candidates. */
    method RejectIneligible(ids: seq<nat>, generatedAt: int) returns (picked: seq<nat>)
      requires Inv(Contents()) && forall id :: id in ids ==> id in accounts
      modifies this`accounts
      ensures Contents() == Reject(old(Contents()), Ineligible(old(Contents()), ids, generatedAt))
      ensures picked == Candidates(old(Contents()), ids, generatedAt)
    {
      hide Eligible, Pending, Inv, Reject, Ineligible, Candidates, InSomeCohort, Marked;
      ghost var b := Contents();
      picked := [];
      BatchNone(b, ids, generatedAt);
      for k := 0 to |ids|
        invariant Contents() == Reject(b, Ineligible(b, ids[..k], generatedAt))
        invariant picked == Candidates(b, ids[..k], generatedAt)
      {
        var id := ids[k];
        BatchStep(b, ids, k, generatedAt);
        if Pending(Contents(), id) {
          if !Eligible(Contents(), id, generatedAt) {
            accounts := accounts[id := Marked(accounts[id], PortfolioIneligible, FromRecommendation, id, clock)];
          } else if !InSomeCohort(Contents(), id) {
            picked := picked + [id];
          }
        }
      }
      assert ids[..|ids|] == ids;
    }

    method OpenCohort(picked: seq<nat>, generatedAt: int, base: seq<nat>)
      requires picked != [] && Distinct(picked) && Distinct(base)
      requires forall id :: id in picked ==> id in accounts
      requires forall id :: id in base ==> id in accounts && accounts[id].size.Some?
      modifies this
      ensures Contents() == Portfolio.OpenCohort(old(Contents()), picked, generatedAt, ToSet(base))
    {
      hide Summed, LegsOf, Deadline, Share, Marked, SnapshotOf, Portfolio.OpenCohort;
      ghost var b := Contents();
      var _, total, legs := CapacityUsage(base, 0, map[]);
      SumsAreSnapshot(b, ToSet(base), total, legs);
      var deadline := MinDeadline(Contents(), picked);
      var n := |cohorts|;
      OpenedAs(b, picked, generatedAt, ToSet(base));
      OpenNone(b.accounts, n, clock);
      cohorts := cohorts + [Cohort(picked, generatedAt, deadline, Snapshot(ToSet(base), total, legs), [], None)];
      for k := 0 to |picked|
        invariant clock == b.clock && activation == b.activation
        invariant cohorts == Portfolio.OpenCohort(b, picked, generatedAt, ToSet(base)).cohorts
        invariant accounts == OpenSome(b.accounts, ToSet(picked[..k]), n, clock)
      {
        var id := picked[k];
        ToSetGrows(picked, k);
        OpenOne(b.accounts, ToSet(picked[..k]), n, clock, id);
        accounts := accounts[id := Marked(accounts[id], AwaitingOwnerDecision, FromMember, n, clock)];
      }
      assert picked[..|picked|] == picked;
    }

    method SupersedeOlder(n: nat)
      requires n < |cohorts|
      requires forall i :: 0 <= i < |cohorts| ==> Distinct(cohorts[i].members)
      requires forall i, id :: 0 <= i < |cohorts| && id in cohorts[i].members ==> id in accounts
      modifies this
      ensures Contents() == Supersede(old(Contents()), n, n)
    {
      ghost var b := Contents();
      for i := 0 to n
        invariant Contents() == Supersede(b, n, i)
      {
        NotYetSuperseded(b, n, i);
        SameRecsSameInstruments(b, Contents(), cohorts[i], cohorts[n]);
        if GivesWay(Contents(), cohorts[i], cohorts[n]) {
          CloseCohort(i, "new_target_superseded", Some(n));
        }
      }
    }

    /** Second half of `assess_recommendation_batch`: open the cohort, supersede, admit if all fits. */
    method AssessPicked(picked: seq<nat>, generatedAt: int)
      requires Inv(Contents()) && picked != [] && Distinct(picked)
      requires forall id :: id in picked ==> id in accounts && Ready(Contents(), id)
      modifies this
      ensures Contents() == Portfolio.AssessPicked(old(Contents()), picked, generatedAt)
    {
      hide AccountOk, CohortsOk, Covered, Sealed, Portfolio.OpenCohort, Supersede, Fits, AtRisk,
        Portfolio.RecordSelection;
      ghost var b := Contents();
      var n := |cohorts|;
      var active := ActiveIds();
      var base := Without(active, picked);
      assert ToSet(base) == Active(b) - ToSet(picked);
      BaseIsSized(b, base);
      ProposalReadable(b, picked, generatedAt, ToSet(base));
      OpenCohort(picked, generatedAt, base);
      CohortsReadable(Contents());
      SupersedeOlder(n);
      CohortsReadable(Contents());
      DistinctTogether(base, picked);
      var complete, ok := FitsCaps(base + picked);
      assert ToSet(base + picked) == ToSet(base) + ToSet(picked);
      if ok {
        RecordSelection(n, picked, Automatic);
      }
    }

    method AssessBatch(ids: seq<nat>, generatedAt: int) returns (refused: Option<Refused>)
      requires Inv(Contents())
      modifies this
      ensures Inv(Contents())
      ensures refused.Some? ==> Contents() == old(Contents())
      ensures Assess(old(Contents()), ids, generatedAt)
           == if refused.Some? then Failed(refused.value) else Done(Contents())
    {
      hide Inv, Reject, Ineligible, Portfolio.AssessPicked, Candidate;
      ghost var b := Contents();
      AssessInv(b, ids, generatedAt);
      if exists id :: id in ids && id !in accounts {
        return Some(UnknownRecommendation);
      }
      var saved := accounts;
      var picked := RejectIneligible(ids, generatedAt);
      if picked != [] {
        if !Distinct(picked) {
          accounts := saved;
          return Some(DuplicateRow);
        }
        BatchReady(b, ids, generatedAt);
        AssessPicked(picked, generatedAt);
      }
      refused := None;
    }

    /** `select_portfolio_cohort`; `picked` lists the requested recommendations without repetition. */
    method SelectCohort(isOwner: bool, i: nat, picked: seq<nat>, triggered: bool) returns (refused: Option<Refused>)
      requires Inv(Contents()) && Distinct(picked)
      modifies this
      ensures Inv(Contents())
      ensures refused.Some? ==> Contents() == old(Contents())
      ensures Select(old(Contents()), isOwner, i, ToSet(picked), triggered)
           == if refused.Some? then Failed(refused.value) else Done(Contents())
    {
      ghost var b := Contents();
      SelectCommandInv(b, isOwner, i, ToSet(picked), triggered);
      if !isOwner {
        return Some(NotOwner);
      }
      if |cohorts| <= i {
        return Some(UnknownCohort);
      }
      var c := cohorts[i];
      if exists id :: id in picked && id !in c.members {
        ghost var id :| id in picked && id !in c.members;
        assert id in ToSet(picked) && id !in ToSet(c.members);
        return Some(OutsideCohort);
      }
      assert ToSet(picked) <= ToSet(c.members);
      if c.selections != [] && c.selections[|c.selections| - 1].selected == ToSet(picked) {
        return None;
      }
      if !CohortIsOpen(Contents(), i, triggered) {
        return Some(CohortClosed);
      }
      var ok := OwnerFits(i, picked);
      if !ok {
        return Some(ExceedsRiskPolicy);
      }
      CohortsReadable(b);
      RecordSelection(i, picked, Owner);
      refused := None;
    }

    method OwnerFits(i: nat, picked: seq<nat>) returns (ok: bool)
      requires Inv(Contents()) && i < |cohorts| && Distinct(picked)
      requires forall id :: id in picked ==> id in cohorts[i].members
      ensures ok == (&& SnapshotFits(Contents(), cohorts[i].base, ToSet(picked))
                     && Fits(accounts, Active(Contents()) - ToSet(cohorts[i].members) + ToSet(picked)))
    {
      hide AccountOk, Covered, Sealed, Fits, AtRisk, SnapshotFits;
      var c := cohorts[i];
      assert CohortOk(Contents(), c);
      var complete, frozen := FitsSnapshot(c.base, picked);
      var active := ActiveIds();
      var rest := Without(active, c.members);
      assert ToSet(rest) == Active(Contents()) - ToSet(c.members);
      BaseIsSized(Contents(), rest);
      DistinctTogether(rest, picked);
      var complete', current := FitsCaps(rest + picked);
      assert ToSet(rest + picked) == ToSet(rest) + ToSet(picked);
      ok := frozen && current;
    }
  }
}
