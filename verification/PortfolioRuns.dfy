/** Every run of the paper portfolio, from an empty ledger, stays sound and within its risk caps. */
module PortfolioRuns {
  import opened Rows
  import opened Lifecycle
  import opened Accounts
  import opened Risk
  import opened Portfolio
  import opened PortfolioSafety

  // ---------- closing a cohort ----------

  lemma CloseAccounts(b: Book, i: nat, reason: string, superseding: Option<nat>)
    requires AccountsOk(b) && i < |b.cohorts|
    ensures var after := CloseCohort(b, i, reason, superseding);
            && AccountsOk(after) && SameRisk(b, after)
            && forall id :: id in b.accounts ==>
                 && after.accounts[id].admissions == b.accounts[id].admissions
                 && End(after.accounts[id]) ==
                      if id in b.cohorts[i].members && End(b.accounts[id]) == Some(AwaitingOwnerDecision)
                      then Some(ClosedUnselected) else End(b.accounts[id])
  {
    forall id | id in b.accounts {
      CloseAccountOk(b.accounts[id], id in b.cohorts[i].members, i, b.clock);
    }
  }

  /** What closing cohort `i` changes in the cohort table. */
  ghost predicate Closed(b: Book, after: Book, i: nat)
    requires i < |b.cohorts|
  {
    && |after.cohorts| == |b.cohorts|
    && after.cohorts[i].closure.Some?
    && after.cohorts[i] == b.cohorts[i].(closure := after.cohorts[i].closure)
    && forall j :: 0 <= j < |b.cohorts| && j != i ==> after.cohorts[j] == b.cohorts[j]
  }

  ghost predicate ClosedEnds(b: Book, after: Book, i: nat)
    requires i < |b.cohorts|
  {
    && SameRisk(b, after)
    && forall id :: id in b.accounts ==>
         && after.accounts[id].admissions == b.accounts[id].admissions
         && End(after.accounts[id]) ==
              if id in b.cohorts[i].members && End(b.accounts[id]) == Some(AwaitingOwnerDecision)
              then Some(ClosedUnselected) else End(b.accounts[id])
  }

  lemma CloseCohorts(b: Book, after: Book, i: nat)
    requires i < |b.cohorts| && CohortsOk(b) && Closed(b, after, i) && ClosedEnds(b, after, i)
    ensures CohortsOk(after)
  {
    forall j | 0 <= j < |after.cohorts|
      ensures CohortOk(after, after.cohorts[j])
    {
      assert CohortOk(b, b.cohorts[j]);
    }
    forall j, k, id | 0 <= j < |after.cohorts| && 0 <= k < |after.cohorts|
                      && id in after.cohorts[j].members && id in after.cohorts[k].members
      ensures j == k
    {
      assert id in b.cohorts[j].members && id in b.cohorts[k].members;
    }
  }

  lemma CloseCovers(b: Book, after: Book, i: nat)
    requires i < |b.cohorts| && Covered(b) && Closed(b, after, i) && ClosedEnds(b, after, i)
    ensures Covered(after)
  {
    forall id | InSomeCohort(b, id)
      ensures InSomeCohort(after, id)
    {
      var j :| 0 <= j < |b.cohorts| && id in b.cohorts[j].members;
      assert id in after.cohorts[j].members;
    }
  }

  /** Closing keeps the ledger sound and sealed and moves nobody in or out of risk. */
  lemma CloseKeeps(b: Book, i: nat, reason: string, superseding: Option<nat>)
    requires Sound(b) && i < |b.cohorts|
    ensures var after := CloseCohort(b, i, reason, superseding);
            && Sound(after) && Closed(b, after, i) && ClosedEnds(b, after, i)
            && (forall id :: Bearing(after, id) <==> Bearing(b, id))
  {
    hide AccountOk, CohortsOk, Covered, CloseCohort, Closed, ClosedEnds;
    var after := CloseCohort(b, i, reason, superseding);
    CloseShape(b, i, reason, superseding);
    CloseCohorts(b, after, i);
    CloseCovers(b, after, i);
    CloseBears(b, after, i);
  }

  lemma CloseShape(b: Book, i: nat, reason: string, superseding: Option<nat>)
    requires AccountsOk(b) && i < |b.cohorts|
    ensures var after := CloseCohort(b, i, reason, superseding);
            AccountsOk(after) && Closed(b, after, i) && ClosedEnds(b, after, i)
  {
    hide AccountOk, End, CloseAccount;
    CloseAccounts(b, i, reason, superseding);
  }

  lemma CloseBears(b: Book, after: Book, i: nat)
    requires i < |b.cohorts| && ClosedEnds(b, after, i)
    ensures forall id :: Bearing(after, id) <==> Bearing(b, id)
  {
    hide End;
  }

  // ---------- recording a selection ----------

  ghost predicate Selected(b: Book, mid: Book, i: nat, selected: set<nat>)
    requires i < |b.cohorts|
  {
    && SameRisk(b, mid)
    && |mid.cohorts| == |b.cohorts|
    && (exists s: Selection :: s.selected == selected && mid.cohorts[i] == b.cohorts[i].(selections := [s]))
    && (forall j :: 0 <= j < |b.cohorts| && j != i ==> mid.cohorts[j] == b.cohorts[j])
    && forall id :: id in b.accounts ==>
         && (id !in selected ==> mid.accounts[id].admissions == b.accounts[id].admissions)
         && End(mid.accounts[id]) ==
              if id in b.cohorts[i].members && id in selected && End(b.accounts[id]) == Some(AwaitingOwnerDecision)
              then Some(AdmittedAwaitingEntry) else End(b.accounts[id])
  }

  /** What the selection leaves in one account. */
  ghost predicate SelectedAccount(b: Book, a: Account, after: Account, i: nat, selected: set<nat>)
    requires i < |b.cohorts|
  {
    && AccountOk(after, b.clock)
    && after.rec == a.rec && after.size == a.size
    && (a.rec.id !in selected ==> after.admissions == a.admissions)
    && End(after) ==
         if a.rec.id in b.cohorts[i].members && a.rec.id in selected && End(a) == Some(AwaitingOwnerDecision)
                     then Some(AdmittedAwaitingEntry) else End(a)
  }

  lemma SelectingOne(b: Book, a: Account, i: nat, selected: set<nat>)
    requires i < |b.cohorts| && AccountOk(a, b.clock) && selected <= ToSet(b.cohorts[i].members)
    requires b.cohorts[i].selections == [] && (a.rec.id in b.cohorts[i].members ==> MemberOk(a, b.cohorts[i]))
    ensures SelectedAccount(b, a,
        SelectAccount(a, a.rec.id in b.cohorts[i].members, a.rec.id in selected, i, b.clock), i, selected)
  {
    assert a.rec.id in selected ==> a.rec.id in b.cohorts[i].members;
    SelectAccountOk(a, a.rec.id in b.cohorts[i].members, a.rec.id in selected, i, b.clock);
  }

  lemma SelectingAccounts(b: Book, i: nat, selected: set<nat>, mode: Mode)
    requires AccountsOk(b) && i < |b.cohorts| && b.cohorts[i].selections == [] && CohortOk(b, b.cohorts[i])
    requires selected <= ToSet(b.cohorts[i].members)
    ensures AccountsOk(Selecting(b, i, selected, mode)) && Selected(b, Selecting(b, i, selected, mode), i, selected)
  {
    hide AccountOk, End, SelectAccount, SelectedAccount, CohortOk, ToSet;
    var mid := Selecting(b, i, selected, mode);
    forall id | id in b.accounts
      ensures SelectedAccount(b, b.accounts[id], mid.accounts[id], i, selected)
    {
      MemberIfListed(b, i, id);
      SelectingOne(b, b.accounts[id], i, selected);
    }
    SelectedRows(b, mid, i, selected, mode);
  }

  lemma MemberIfListed(b: Book, i: nat, id: nat)
    requires i < |b.cohorts| && CohortOk(b, b.cohorts[i]) && id in b.accounts
    ensures id in b.cohorts[i].members ==> MemberOk(b.accounts[id], b.cohorts[i])
  {
  }

  lemma SelectedRows(b: Book, mid: Book, i: nat, selected: set<nat>, mode: Mode)
    requires i < |b.cohorts| && b.cohorts[i].selections == [] && mid == Selecting(b, i, selected, mode)
    requires forall id :: id in b.accounts ==>
               b.accounts[id].rec.id == id && SelectedAccount(b, b.accounts[id], mid.accounts[id], i, selected)
    ensures AccountsOk(mid) && Selected(b, mid, i, selected)
  {
    hide AccountOk, End, SelectAccount;
    var s := Selection(mode, selected, b.clock);
    assert b.cohorts[i].selections + [s] == [s];
  }

  lemma SelectCohorts(b: Book, mid: Book, i: nat, selected: set<nat>)
    requires i < |b.cohorts| && CohortsOk(b) && Selected(b, mid, i, selected)
    requires selected <= ToSet(b.cohorts[i].members)
    ensures CohortsOk(mid)
  {
    forall j | 0 <= j < |mid.cohorts|
      ensures CohortOk(mid, mid.cohorts[j])
    {
      var c := b.cohorts[j];
      assert CohortOk(b, c);
      forall id | id in c.members
        ensures id in mid.accounts && MemberOk(mid.accounts[id], mid.cohorts[j])
      {
        assert id in selected ==> id in b.cohorts[i].members;
        assert MemberOk(b.accounts[id], c);
      }
    }
    forall j, k, id | 0 <= j < |mid.cohorts| && 0 <= k < |mid.cohorts|
                      && id in mid.cohorts[j].members && id in mid.cohorts[k].members
      ensures j == k
    {
      assert id in b.cohorts[j].members && id in b.cohorts[k].members;
    }
  }

  lemma SelectCovers(b: Book, mid: Book, i: nat, selected: set<nat>)
    requires i < |b.cohorts| && Covered(b) && Selected(b, mid, i, selected)
    requires selected <= ToSet(b.cohorts[i].members)
    ensures Covered(mid)
  {
    forall id | InSomeCohort(b, id) || id in selected
      ensures InSomeCohort(mid, id)
    {
      var j :| 0 <= j < |b.cohorts| && id in b.cohorts[j].members;
      assert id in mid.cohorts[j].members;
    }
  }

  /** Before its first selection nobody in the cohort bears risk. */
  lemma UnselectedBearNoRisk(b: Book, i: nat)
    requires Sound(b) && i < |b.cohorts| && b.cohorts[i].selections == []
    ensures forall id :: id in b.cohorts[i].members ==> !Bearing(b, id)
  {
    assert CohortOk(b, b.cohorts[i]);
  }

  /** A first selection keeps the ledger sound, closes the cohort, and adds to the risk-bearing set exactly
      the selected members that were still waiting for the owner. */
  lemma SelectKeeps(b: Book, i: nat, selected: set<nat>, mode: Mode)
    requires Sound(b) && i < |b.cohorts| && b.cohorts[i].selections == [] && selected <= ToSet(b.cohorts[i].members)
    ensures var after := RecordSelection(b, i, selected, mode);
            && Sound(after) && SameRisk(b, after)
            && (Sealed(b) ==> Sealed(after))
            && forall id :: Bearing(after, id) <==>
                 Bearing(b, id)
                 || (id in selected && id in b.accounts && End(b.accounts[id]) == Some(AwaitingOwnerDecision))
  {
    var mid := Selecting(b, i, selected, mode);
    assert CohortOk(b, b.cohorts[i]);
    SelectingAccounts(b, i, selected, mode);
    SelectCohorts(b, mid, i, selected);
    SelectCovers(b, mid, i, selected);
    CloseKeeps(mid, i, "selection_recorded", None);
    SelectRisk(b, mid, RecordSelection(b, i, selected, mode), i, selected);
  }

  lemma SelectRisk(b: Book, mid: Book, after: Book, i: nat, selected: set<nat>)
    requires i < |b.cohorts| && Selected(b, mid, i, selected) && selected <= ToSet(b.cohorts[i].members)
    requires Closed(mid, after, i) && SameRisk(mid, after) && forall id :: Bearing(after, id) <==> Bearing(mid, id)
    ensures SameRisk(b, after)
    ensures Sealed(b) ==> Sealed(after)
    ensures forall id :: Bearing(after, id) <==>
              Bearing(b, id)
              || (id in selected && id in b.accounts && End(b.accounts[id]) == Some(AwaitingOwnerDecision))
  {
    if Sealed(b) {
      forall j | 0 <= j < |after.cohorts| && after.cohorts[j].selections != []
        ensures after.cohorts[j].closure.Some?
      {
        assert j != i ==> after.cohorts[j] == b.cohorts[j];
      }
    }
  }

  /** A first selection that fits beside the rest of the portfolio keeps everything. */
  lemma SelectInv(b: Book, i: nat, selected: set<nat>, mode: Mode)
    requires Sound(b) && Sealed(b) && i < |b.cohorts| && b.cohorts[i].selections == []
    requires selected <= ToSet(b.cohorts[i].members)
    requires Fits(b.accounts, (Active(b) - ToSet(b.cohorts[i].members)) + selected)
    ensures Inv(RecordSelection(b, i, selected, mode))
  {
    SelectKeeps(b, i, selected, mode);
    UnselectedBearNoRisk(b, i);
    ActiveByEnd(b);
    FewerBearing(b, RecordSelection(b, i, selected, mode), (Active(b) - ToSet(b.cohorts[i].members)) + selected);
  }

  // ---------- opening a cohort ----------

  ghost predicate Ready(b: Book, id: nat) {
    && id in b.accounts && !InSomeCohort(b, id)
    && b.accounts[id].size.Some? && b.accounts[id].rec.generatedAt <= b.clock
    && End(b.accounts[id]) == Some(AwaitingPortfolioAssessment)
  }

  lemma PendingMeans(b: Book, id: nat)
    requires AccountsOk(b) && Pending(b, id)
    ensures b.accounts[id].rec.generatedAt <= b.clock && End(b.accounts[id]) == Some(AwaitingPortfolioAssessment)
  {
    ReadAccount(b.accounts[id], b.clock);
  }

  /** Rows after marking `ids`, all of them waiting for assessment, with `state`. */
  ghost predicate MarkedAll(b: Book, after: Book, ids: set<nat>, state: State) {
    && AccountsOk(after) && SameRisk(b, after)
    && forall id :: id in b.accounts ==>
         && after.accounts[id].admissions == b.accounts[id].admissions
         && End(after.accounts[id]) == if id in ids then Some(state) else End(b.accounts[id])
  }

  ghost predicate AllPending(b: Book, ids: set<nat>) {
    forall id :: id in ids && id in b.accounts ==>
      b.accounts[id].rec.generatedAt <= b.clock && End(b.accounts[id]) == Some(AwaitingPortfolioAssessment)
  }

  lemma MarkPending(b: Book, after: Book, ids: set<nat>, state: State, kind: SourceKind, key: nat -> nat)
    requires AccountsOk(b) && AllPending(b, ids) && state in {PortfolioIneligible, AwaitingOwnerDecision}
    requires after.clock == b.clock && after.accounts.Keys == b.accounts.Keys
    requires forall id :: id in b.accounts ==>
               after.accounts[id] ==
                 if id in ids then Marked(b.accounts[id], state, kind, key(id), b.clock) else b.accounts[id]
    ensures MarkedAll(b, after, ids, state)
  {
    hide AccountOk, End, Marked;
    forall id | id in b.accounts
      ensures MarkedOne(b.accounts[id], after.accounts[id], id in ids, state, b.clock)
    {
      MarkOne(b.accounts[id], id in ids, state, kind, key(id), b.clock);
    }
  }

  ghost predicate MarkedOne(a: Account, after: Account, marked: bool, state: State, now: int) {
    && AccountOk(after, now) && after.rec == a.rec && after.size == a.size && after.admissions == a.admissions
    && End(after) == if marked then Some(state) else End(a)
  }

  lemma MarkOne(a: Account, marked: bool, state: State, kind: SourceKind, key: nat, now: int)
    requires AccountOk(a, now) && state in {PortfolioIneligible, AwaitingOwnerDecision}
    requires marked ==> a.rec.generatedAt <= now && End(a) == Some(AwaitingPortfolioAssessment)
    ensures MarkedOne(a, if marked then Marked(a, state, kind, key, now) else a, marked, state, now)
  {
    hide AccountOk;
    if marked { MarkedOk(a, state, kind, key, now); }
  }

  ghost predicate Opened(b: Book, after: Book, picked: seq<nat>) {
    && MarkedAll(b, after, ToSet(picked), AwaitingOwnerDecision)
    && |after.cohorts| == |b.cohorts| + 1
    && (forall j :: 0 <= j < |b.cohorts| ==> after.cohorts[j] == b.cohorts[j])
    && after.cohorts[|b.cohorts|].members == picked && Distinct(picked)
    && after.cohorts[|b.cohorts|].selections == []
    && after.cohorts[|b.cohorts|].closure.None?
  }

  lemma OpenShape(b: Book, picked: seq<nat>, generatedAt: int, base: set<nat>)
    requires AccountsOk(b) && picked != [] && Distinct(picked)
    requires (forall id :: id in picked ==> id in b.accounts) && AllPending(b, ToSet(picked))
    ensures Opened(b, OpenCohort(b, picked, generatedAt, base), picked)
  {
    MarkPending(b, OpenCohort(b, picked, generatedAt, base), ToSet(picked), AwaitingOwnerDecision, FromMember,
                (id: nat) => |b.cohorts|);
  }

  lemma OpenCohorts(b: Book, after: Book, picked: seq<nat>)
    requires CohortsOk(b) && Covered(b) && Opened(b, after, picked) && forall id :: id in picked ==> Ready(b, id)
    ensures CohortsOk(after)
  {
    hide AccountsOk, CohortOk, Covered, Opened, Ready, NoOverlap;
    OpenKeepsOlder(b, after, picked);
    OpenAddsNewest(b, after, picked);
    OpenOverlapsNone(b, after, picked);
    OpenedTable(b, after, picked);
  }

  lemma OpenedTable(b: Book, after: Book, picked: seq<nat>)
    requires Opened(b, after, picked)
    ensures |after.cohorts| == |b.cohorts| + 1
  {
    hide MarkedAll;
  }

  lemma OpenKeepsOlder(b: Book, after: Book, picked: seq<nat>)
    requires (forall j :: 0 <= j < |b.cohorts| ==> CohortOk(b, b.cohorts[j]))
    requires Opened(b, after, picked) && forall id :: id in picked ==> Ready(b, id)
    ensures forall j :: 0 <= j < |b.cohorts| ==> CohortOk(after, after.cohorts[j])
  {
    hide AccountsOk, CohortOk, End;
    forall j | 0 <= j < |b.cohorts|
      ensures CohortOk(after, after.cohorts[j])
    {
      forall id | id in b.cohorts[j].members && id in b.accounts
        ensures id in after.accounts && Keeps(b.accounts[id], after.accounts[id])
      {
        assert InSomeCohort(b, id);
      }
      CohortKept(b, after, b.cohorts[j]);
    }
  }

  lemma OpenAddsNewest(b: Book, after: Book, picked: seq<nat>)
    requires Covered(b) && Opened(b, after, picked) && forall id :: id in picked ==> Ready(b, id)
    ensures CohortOk(after, after.cohorts[|b.cohorts|])
  {
    hide AccountsOk, End, InSomeCohort;
  }

  lemma OpenOverlapsNone(b: Book, after: Book, picked: seq<nat>)
    requires NoOverlap(b) && Opened(b, after, picked) && forall id :: id in picked ==> Ready(b, id)
    ensures NoOverlap(after)
  {
    hide MarkedAll, End;
    forall j, k, id | 0 <= j < |after.cohorts| && 0 <= k < |after.cohorts|
                      && id in after.cohorts[j].members && id in after.cohorts[k].members
      ensures j == k
    {
      assert j < |b.cohorts| ==> InSomeCohort(b, id);
      assert k < |b.cohorts| ==> InSomeCohort(b, id);
      assert id in picked ==> Ready(b, id);
    }
  }

  lemma OpenCovers(b: Book, after: Book, picked: seq<nat>)
    requires Covered(b) && Opened(b, after, picked)
    ensures Covered(after)
  {
    forall id | InSomeCohort(b, id) || id in picked
      ensures InSomeCohort(after, id)
    {
      if id !in picked {
        var j :| 0 <= j < |b.cohorts| && id in b.cohorts[j].members;
        assert id in after.cohorts[j].members;
      }
    }
  }

  lemma OpenKeeps(b: Book, after: Book, picked: seq<nat>)
    requires Sound(b) && Sealed(b) && Opened(b, after, picked) && forall id :: id in picked ==> Ready(b, id)
    ensures Sound(after) && Sealed(after)
    ensures forall id :: Bearing(after, id) <==> Bearing(b, id)
  {
    OpenCohorts(b, after, picked);
    OpenCovers(b, after, picked);
    assert forall id :: id in picked ==> Ready(b, id) && !Bearing(b, id);
  }

  // ---------- superseding older cohorts ----------

  /** A sound and sealed ledger in which cohort `n` and its members are as they were in `b`. */
  ghost predicate OlderClosed(b: Book, after: Book, n: nat) {
    && n < |b.cohorts| == |after.cohorts|
    && Sound(after) && Sealed(after) && SameRisk(b, after)
    && after.cohorts[n] == b.cohorts[n]
    && (forall id :: id in b.cohorts[n].members && id in b.accounts ==> End(after.accounts[id]) == End(b.accounts[id]))
    && (forall id :: Bearing(after, id) <==> Bearing(b, id))
  }

  lemma CloseSealed(b: Book, after: Book, i: nat)
    requires Sealed(b) && i < |b.cohorts| && Closed(b, after, i)
    ensures Sealed(after)
  {
  }

  lemma CloseOlder(b: Book, before: Book, n: nat, i: nat)
    requires i < n && OlderClosed(b, before, n)
    ensures OlderClosed(b, SupersedeOne(b, before, n, i), n)
  {
    hide AccountOk, CohortOk, Covered, CloseCohort;
    CloseKeeps(before, i, "new_target_superseded", Some(n));
    CloseSealed(before, CloseCohort(before, i, "new_target_superseded", Some(n)), i);
    assert forall id :: id in before.cohorts[n].members ==> id !in before.cohorts[i].members;
  }

  lemma {:induction false} SupersedeKeeps(b: Book, n: nat, upTo: nat)
    requires n < |b.cohorts| && OlderClosed(b, b, n) && upTo <= n
    ensures OlderClosed(b, Supersede(b, n, upTo), n)
  {
    hide *;
    SupersedeUnfolds(b, n, upTo);
    if upTo > 0 {
      SupersedeKeeps(b, n, upTo - 1);
      CloseOlder(b, Supersede(b, n, upTo - 1), n, upTo - 1);
    }
  }

  lemma SupersedeUnfolds(b: Book, n: nat, upTo: nat)
    requires upTo <= n < |b.cohorts|
    ensures Supersede(b, n, upTo) == if upTo == 0 then b else SupersedeOne(b, Supersede(b, n, upTo - 1), n, upTo - 1)
  {
    hide SupersedeOne;
  }

  // ---------- assessing a batch ----------

  lemma Propose(b: Book, picked: seq<nat>, generatedAt: int, base: set<nat>) returns (b2: Book)
    requires Inv(b) && picked != [] && Distinct(picked)
    requires forall id :: id in picked ==> id in b.accounts && Ready(b, id)
    ensures b2 == OpenCohort(b, picked, generatedAt, base) && |b.cohorts| < |b2.cohorts|
    ensures Opened(b, b2, picked) && OlderClosed(b2, Supersede(b2, |b.cohorts|, |b.cohorts|), |b.cohorts|)
    ensures Sound(b2) && forall id :: Bearing(b2, id) <==> Bearing(b, id)
  {
    hide AccountOk, CohortOk, OpenCohort;
    b2 := OpenCohort(b, picked, generatedAt, base);
    OpenShape(b, picked, generatedAt, base);
    OpenKeeps(b, b2, picked);
    SupersedeKeeps(b2, |b.cohorts|, |b.cohorts|);
  }

  lemma AssessPickedInv(b: Book, picked: seq<nat>, generatedAt: int)
    requires Inv(b) && picked != [] && Distinct(picked)
    requires forall id :: id in picked ==> id in b.accounts && Ready(b, id)
    ensures Inv(AssessPicked(b, picked, generatedAt))
  {
    hide Inv, Opened, OlderClosed, Supersede, RecordSelection, Fits;
    var n, base := |b.cohorts|, Active(b) - ToSet(picked);
    var b2 := Propose(b, picked, generatedAt, base);
    ProposalInv(b, b2, Supersede(b2, n, n), picked, base);
  }

  lemma ProposalInv(b: Book, b2: Book, b3: Book, picked: seq<nat>, base: set<nat>)
    requires Inv(b) && Opened(b, b2, picked) && OlderClosed(b2, b3, |b.cohorts|)
    requires base == Active(b) - ToSet(picked) && forall id :: Bearing(b2, id) <==> Bearing(b, id)
    ensures Inv(b3)
    ensures Fits(b.accounts, base + ToSet(picked)) ==> Inv(RecordSelection(b3, |b.cohorts|, ToSet(picked), Automatic))
  {
    hide AccountOk, CohortsOk, Covered, Fits, End, RecordSelection, Active;
    SameActive(b, b3);
    SameFits(b, b3, Active(b));
    if Fits(b.accounts, base + ToSet(picked)) {
      SameFits(b, b3, base + ToSet(picked));
      ProposalSelected(b3, |b.cohorts|, picked);
    }
  }

  lemma SameActive(b: Book, after: Book)
    requires AccountsOk(b) && AccountsOk(after) && forall id :: Bearing(after, id) <==> Bearing(b, id)
    ensures Active(after) == Active(b)
  {
    hide AccountsOk, Bearing, Active;
    ActiveByEnd(b);
    ActiveByEnd(after);
  }

  lemma ProposalSelected(b: Book, n: nat, picked: seq<nat>)
    requires Sound(b) && Sealed(b) && n < |b.cohorts| && b.cohorts[n].members == picked && b.cohorts[n].selections == []
    requires Fits(b.accounts, Active(b) - ToSet(picked) + ToSet(picked))
    ensures Inv(RecordSelection(b, n, ToSet(picked), Automatic))
  {
    SelectInv(b, n, ToSet(picked), Automatic);
  }

  lemma SameFits(b: Book, after: Book, ids: set<nat>)
    requires SameRisk(b, after) && Fits(b.accounts, ids)
    ensures Fits(after.accounts, ids)
  {
    UsageDepends(b.accounts, after.accounts, None, ids);
    forall leg: Leg
      ensures Usage(after.accounts, Some(leg), ids) <= LEG_CAP
    {
      UsageDepends(b.accounts, after.accounts, Some(leg), ids);
    }
  }

  lemma RejectShape(b: Book, rejected: set<nat>)
    requires AccountsOk(b) && AllPending(b, rejected)
    ensures MarkedAll(b, Reject(b, rejected), rejected, PortfolioIneligible)
  {
    MarkPending(b, Reject(b, rejected), rejected, PortfolioIneligible, FromRecommendation, (id: nat) => id);
  }

  lemma RejectInv(b: Book, after: Book, rejected: set<nat>)
    requires Inv(b) && AllPending(b, rejected) && MarkedAll(b, after, rejected, PortfolioIneligible)
    requires after.cohorts == b.cohorts
    ensures Inv(after)
  {
    hide AccountOk, Fits, Active, CohortsOk, Covered, End;
    CohortsKept(b, after) by { RejectKeeps(b, after, rejected); }
    RejectBears(b, after, rejected);
    ActiveByEnd(b);
    FewerBearing(b, after, Active(b));
  }

  lemma RejectKeeps(b: Book, after: Book, rejected: set<nat>)
    requires MarkedAll(b, after, rejected, PortfolioIneligible)
    ensures forall id :: id in b.accounts ==> id in after.accounts && Keeps(b.accounts[id], after.accounts[id])
    ensures forall id :: id in after.accounts ==> id in b.accounts
  {
    hide AccountOk, End;
  }

  lemma RejectBears(b: Book, after: Book, rejected: set<nat>)
    requires MarkedAll(b, after, rejected, PortfolioIneligible)
    ensures forall id :: Bearing(after, id) ==> Bearing(b, id)
  {
    hide AccountOk, End;
  }

  lemma BatchSplits(b: Book, ids: seq<nat>, generatedAt: int)
    requires AccountsOk(b)
    ensures AllPending(b, Ineligible(b, ids, generatedAt))
    ensures forall id :: id in Candidates(b, ids, generatedAt) ==>
        Ready(b, id) && id !in Ineligible(b, ids, generatedAt)
  {
    forall id | Pending(b, id)
      ensures b.accounts[id].rec.generatedAt <= b.clock && End(b.accounts[id]) == Some(AwaitingPortfolioAssessment)
    {
      PendingMeans(b, id);
    }
  }

  lemma AssessInv(b: Book, ids: seq<nat>, generatedAt: int)
    requires Inv(b)
    ensures var r := Assess(b, ids, generatedAt); r.Done? ==> Inv(r.book)
  {
    var rejected, picked := Ineligible(b, ids, generatedAt), Candidates(b, ids, generatedAt);
    BatchSplits(b, ids, generatedAt);
    RejectShape(b, rejected);
    var b1 := Reject(b, rejected);
    RejectInv(b, b1, rejected);
    if picked != [] && Distinct(picked) {
      forall id | id in picked
        ensures id in b1.accounts && Ready(b1, id)
      {
        assert Ready(b, id);
      }
      AssessPickedInv(b1, picked, generatedAt);
    }
  }

  // ---------- the other commands ----------

  lemma SelectCommandInv(b: Book, isOwner: bool, i: nat, picked: set<nat>, triggered: bool)
    requires Inv(b)
    ensures var r := Select(b, isOwner, i, picked, triggered); r.Done? ==> Inv(r.book)
  {
    var r := Select(b, isOwner, i, picked, triggered);
    if r.Done? && i < |b.cohorts| && CohortIsOpen(b, i, triggered) {
      if SnapshotFits(b, b.cohorts[i].base, picked) && picked <= ToSet(b.cohorts[i].members) {
        SelectInv(b, i, picked, Owner);
      }
    }
  }

  lemma CloseInv(b: Book, i: nat, reason: string)
    requires Inv(b) && i < |b.cohorts|
    ensures Inv(CloseCohort(b, i, reason, None))
  {
    var after := CloseCohort(b, i, reason, None);
    CloseKeeps(b, i, reason, None);
    CloseSealed(b, after, i);
    ActiveByEnd(b);
    FewerBearing(b, after, Active(b));
  }

  /** A change to one account that moves it, if at all, towards its end. */
  ghost predicate Settles(a: Account, after: Account, now: int) {
    && AccountOk(after, now)
    && after.rec == a.rec && after.admissions == a.admissions && (a.size.Some? ==> after.size == a.size)
    && (RiskBearing(after) ==> RiskBearing(a))
    && (End(after) == Some(AwaitingOwnerDecision) ==> End(a) == Some(AwaitingOwnerDecision))
  }

  lemma SettleSound(b: Book, id: nat, a: Account)
    requires Sound(b) && id in b.accounts && Settles(b.accounts[id], a, b.clock)
    ensures Sound(b.(accounts := b.accounts[id := a]))
  {
    hide AccountOk, End, CohortsOk, Covered;
    var after := b.(accounts := b.accounts[id := a]);
    forall x | x in b.accounts
      ensures x in after.accounts && Keeps(b.accounts[x], after.accounts[x])
    {
      StaysTheSame(b.accounts[x]);
    }
    CohortsKept(b, after);
  }

  lemma SettleActive(b: Book, id: nat, a: Account)
    requires Sound(b) && id in b.accounts && Settles(b.accounts[id], a, b.clock)
    ensures Active(b.(accounts := b.accounts[id := a])) <= Active(b)
    ensures forall x :: x in Active(b) ==> b.accounts[x].size.Some?
  {
    var after := b.(accounts := b.accounts[id := a]);
    SettleSound(b, id, a);
    ActiveByEnd(b);
    ActiveByEnd(after);
  }

  lemma SettleCaps(b: Book, id: nat, a: Account)
    requires Inv(b) && id in b.accounts && Settles(b.accounts[id], a, b.clock)
    ensures WithinCaps(b.(accounts := b.accounts[id := a]))
  {
    var accounts' := b.accounts[id := a];
    var active := Active(b.(accounts := accounts'));
    SettleActive(b, id, a);
    SizesPositive(b);
    SubsetFits(b.accounts, active, Active(b));
    FitsDepends(b.accounts, accounts', active);
  }

  lemma SettleInv(b: Book, id: nat, a: Account)
    requires Inv(b) && id in b.accounts && Settles(b.accounts[id], a, b.clock)
    ensures Inv(b.(accounts := b.accounts[id := a]))
  {
    SettleSound(b, id, a);
    SettleCaps(b, id, a);
  }

  lemma RecordInv(b: Book, id: nat, state: State, evidenceHolds: bool)
    requires Inv(b) && PaperState(state)
    ensures var r := Record(b, id, state, evidenceHolds); r.Done? ==> Inv(r.book)
  {
    var r := Record(b, id, state, evidenceHolds);
    if r.Done? {
      RecordAccountOk(b.accounts[id], Request(state, SourceOf(state, id), evidenceHolds, b.clock), b.clock);
      SettleInv(b, id, r.book.accounts[id]);
    }
  }

  lemma SizeInv(b: Book, id: nat, risk: int)
    requires Inv(b)
    ensures var r := Size(b, id, risk); r.Done? ==> Inv(r.book)
  {
    var r := Size(b, id, risk);
    if r.Done? && r.book != b {
      SettleInv(b, id, b.accounts[id].(size := Some(risk)));
    }
  }

  lemma NewAccountOk(rec: Recommendation, now: int)
    ensures var a := Account(rec, None, [Root(rec)], [], []);
            AccountOk(a, now) && End(a) == Some(Initial(rec)) && !RiskBearing(a)
  {
  }

  lemma IssueSound(b: Book, rec: Recommendation)
    requires Sound(b) && rec.id !in b.accounts
    ensures Sound(Issue(b, rec).book)
  {
    hide AccountOk, End, CohortsOk, Covered;
    var after := Issue(b, rec).book;
    NewAccountOk(rec, b.clock);
    forall x | x in b.accounts
      ensures x in after.accounts && Keeps(b.accounts[x], after.accounts[x])
    {
      StaysTheSame(b.accounts[x]);
    }
    CohortsKept(b, after);
  }

  lemma IssueInv(b: Book, rec: Recommendation)
    requires Inv(b) && rec.id !in b.accounts
    ensures Inv(Issue(b, rec).book)
  {
    var after := Issue(b, rec).book;
    IssueSound(b, rec);
    assert Active(after) == Active(b) by {
      NewAccountOk(rec, b.clock);
      ActiveByEnd(b);
      ActiveByEnd(after);
    }
    FitsDepends(b.accounts, after.accounts, Active(b));
  }

  lemma TickSound(b: Book, elapsed: nat)
    requires Sound(b)
    ensures Sound(b.(clock := b.clock + elapsed))
  {
    var after := b.(clock := b.clock + elapsed);
    forall id | id in b.accounts
      ensures AccountOk(after.accounts[id], after.clock)
    {
      assert AccountOk(b.accounts[id], b.clock);
    }
    forall id | id in b.accounts
      ensures id in after.accounts && Keeps(b.accounts[id], after.accounts[id])
    {
      StaysTheSame(b.accounts[id]);
    }
    hide AccountOk, End, CohortsOk, Covered;
    CohortsKept(b, after);
  }

  /** Time alone never puts a recommendation at risk. */
  lemma TickInv(b: Book, elapsed: nat)
    requires Inv(b)
    ensures Inv(b.(clock := b.clock + elapsed))
  {
    var after := b.(clock := b.clock + elapsed);
    TickSound(b, elapsed);
    ActiveByEnd(b);
    ActiveByEnd(after);
    assert Active(after) == Active(b);
  }

  lemma ActivateInv(b: Book)
    requires Inv(b)
    ensures Inv(b.(activation := Some(b.clock)))
  {
    var after := b.(activation := Some(b.clock));
    hide AccountOk, CohortsOk, Covered, Fits, AtRisk, End;
    forall id | id in b.accounts
      ensures id in after.accounts && Keeps(b.accounts[id], after.accounts[id])
    {
      StaysTheSame(b.accounts[id]);
    }
    CohortsKept(b, after);
    assert Active(after) == Active(b);
  }

  lemma TryInv(b: Book, c: Command)
    requires Inv(b)
    ensures Try(b, c).Done? ==> Inv(Try(b, c).book)
  {
    hide Inv, Assess, Select, Record, Size, CloseCohort;
    match c
    case Tick(d) => TickInv(b, d);
    case Activate => if b.activation.None? { ActivateInv(b); }
    case IssueRec(rec) => if rec.id !in b.accounts { IssueInv(b, rec); }
    case SizeRec(id, risk) => SizeInv(b, id, risk);
    case AssessBatch(ids, g) => AssessInv(b, ids, g);
    case SelectCohort(o, i, picked, t) => SelectCommandInv(b, o, i, picked, t);
    case Close(i, reason) => if i < |b.cohorts| { CloseInv(b, i, reason); }
    case RecordFact(id, s, ok) => if PaperState(s) { RecordInv(b, id, s, ok); }
  }

  lemma StepInv(b: Book, c: Command)
    requires Inv(b)
    ensures Inv(Step(b, c))
  {
    hide Inv, Try;
    TryInv(b, c);
  }

  lemma EmptyInv(clock: int)
    ensures Inv(Empty(clock))
  {
  }

  /** The invariant holds after every run of every length. */
  lemma {:induction false} RunInv(clock: int, commands: seq<Command>)
    ensures Inv(Run(Empty(clock), commands))
  {
    EmptyInv(clock);
    if commands != [] {
      RunInv(clock, commands[..|commands| - 1]);
      StepInv(Run(Empty(clock), commands[..|commands| - 1]), commands[|commands| - 1]);
    }
  }
}
