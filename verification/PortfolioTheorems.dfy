/** The promises of the paper portfolio, read off the invariant for every run. */
module PortfolioTheorems {
  import opened Rows
  import opened Lifecycle
  import opened Accounts
  import opened Risk
  import opened Portfolio
  import opened PortfolioSafety
  import opened PortfolioRuns

  /** In every run the projected risk of the active recommendations stays within the aggregate cap and, for
      every currency and direction, within the leg cap. */
  lemma RiskStaysWithinCaps(clock: int, commands: seq<Command>)
    ensures var b := Run(Empty(clock), commands);
            && Usage(b.accounts, None, Active(b)) <= AGGREGATE_CAP
            && forall leg: Leg :: Usage(b.accounts, Some(leg), Active(b)) <= LEG_CAP
  {
    RunInv(clock, commands);
  }

  /** In every run a recommendation whose projected state is admitted or entered has ADMITTED as its latest
      admission and carries a positive size, so the caps overlook nobody. */
  lemma LifecycleAgreesWithAdmission(clock: int, commands: seq<Command>, id: nat)
    requires id in Run(Empty(clock), commands).accounts
    ensures var b := Run(Empty(clock), commands);
            var a := b.accounts[id];
            StateNow(a, b.clock) in {Some(AdmittedAwaitingEntry), Some(Entered)} ==>
              AdmissionNow(a, b.clock) == Some(Admitted) && a.size.Some? && 0 < a.size.value <= SETUP_CAP
              && id in Active(b)
  {
    RunInv(clock, commands);
    var b := Run(Empty(clock), commands);
    ReadAccount(b.accounts[id], b.clock);
    AtRiskByEnd(b.accounts[id], b.clock);
  }

  /** In every run each cohort is selected at most once, a selected cohort is closed, its selection stays
      within its members, and nobody in a closed cohort still waits for the owner. */
  lemma CohortsDecideOnce(clock: int, commands: seq<Command>, i: nat)
    requires i < |Run(Empty(clock), commands).cohorts|
    ensures var b := Run(Empty(clock), commands);
            var c := b.cohorts[i];
            && |c.selections| <= 1
            && (c.selections != [] ==> c.closure.Some? && c.selections[0].selected <= ToSet(c.members))
            && (c.closure.Some? ==> forall id :: id in c.members ==>
                  id in b.accounts && StateNow(b.accounts[id], b.clock) != Some(AwaitingOwnerDecision))
  {
    RunInv(clock, commands);
    var b := Run(Empty(clock), commands);
    var c := b.cohorts[i];
    assert CohortOk(b, c);
    forall id | id in c.members
      ensures id in b.accounts
      ensures c.closure.Some? ==> StateNow(b.accounts[id], b.clock) != Some(AwaitingOwnerDecision)
    {
      assert MemberOk(b.accounts[id], c);
      ReadAccount(b.accounts[id], b.clock);
    }
  }

  /** In every run no admission is ever revoked, and no recommendation is a member of two cohorts. */
  lemma NoRevocation(clock: int, commands: seq<Command>, id: nat)
    requires id in Run(Empty(clock), commands).accounts
    ensures var b := Run(Empty(clock), commands);
            && (forall k :: 0 <= k < |b.accounts[id].admissions| ==> b.accounts[id].admissions[k].value == Admitted)
            && StateNow(b.accounts[id], b.clock) != Some(AdmissionRevoked)
            && forall i, j :: 0 <= i < j < |b.cohorts| ==> !(id in b.cohorts[i].members && id in b.cohorts[j].members)
  {
    RunInv(clock, commands);
    var b := Run(Empty(clock), commands);
    ReadAccount(b.accounts[id], b.clock);
    assert AdmissionsSound(b.accounts[id].admissions, b.clock);
  }

  /** A batch is admitted whole or not at all: either everyone picked joins the active set, or the active
      set is untouched and everyone picked waits for the owner. */
  lemma AllOrNothing(b: Book, picked: seq<nat>, generatedAt: int)
    requires Inv(b) && picked != [] && Distinct(picked)
    requires forall id :: id in picked ==> id in b.accounts && Ready(b, id)
    ensures var after := AssessPicked(b, picked, generatedAt);
            if Fits(b.accounts, Active(b) + ToSet(picked))
            then Active(after) == Active(b) + ToSet(picked)
            else Active(after) == Active(b)
                 && forall id :: id in picked ==>
                      id in after.accounts && End(after.accounts[id]) == Some(AwaitingOwnerDecision)
  {
    hide Inv, Opened, OlderClosed, Supersede, RecordSelection, Fits, Active, End;
    var n, base := |b.cohorts|, Active(b) - ToSet(picked);
    var after := AssessPicked(b, picked, generatedAt);
    var b2 := Propose(b, picked, generatedAt, base);
    AssessPickedInv(b, picked, generatedAt);
    assert base + ToSet(picked) == Active(b) + ToSet(picked);
    AllOrNothingEnds(b, b2, Supersede(b2, n, n), after, picked);
  }

  lemma AllOrNothingEnds(b: Book, b2: Book, b3: Book, after: Book, picked: seq<nat>)
    requires Inv(b) && Inv(after) && Opened(b, b2, picked) && OlderClosed(b2, b3, |b.cohorts|)
    requires forall id :: Bearing(b2, id) <==> Bearing(b, id)
    requires forall id :: id in picked ==> id in b.accounts
    requires after == if Fits(b.accounts, Active(b) + ToSet(picked))
                      then RecordSelection(b3, |b.cohorts|, ToSet(picked), Automatic) else b3
    ensures if Fits(b.accounts, Active(b) + ToSet(picked))
            then Active(after) == Active(b) + ToSet(picked)
            else Active(after) == Active(b)
                 && forall id :: id in picked ==>
                      id in after.accounts && End(after.accounts[id]) == Some(AwaitingOwnerDecision)
  {
    hide AccountOk, CohortsOk, Covered, Sealed, WithinCaps, Fits, RecordSelection, Active, Opened, Bearing, End,
      AccountsOk;
    ActiveByEnd(b);
    ActiveByEnd(after);
    PickedStillWait(b, b2, b3, picked);
    if Fits(b.accounts, Active(b) + ToSet(picked)) {
      NewestIsUnselected(b, b2, picked);
      SelectKeeps(b3, |b.cohorts|, ToSet(picked), Automatic);
    }
  }

  lemma PickedStillWait(b: Book, b2: Book, b3: Book, picked: seq<nat>)
    requires Opened(b, b2, picked) && OlderClosed(b2, b3, |b.cohorts|)
    requires forall id :: id in picked ==> id in b.accounts
    ensures forall id :: id in picked ==> id in b3.accounts && End(b3.accounts[id]) == Some(AwaitingOwnerDecision)
    ensures b3.accounts.Keys == b.accounts.Keys
  {
    hide AccountOk, Sound, Sealed, End, AccountsOk;
  }

  lemma NewestIsUnselected(b: Book, b2: Book, picked: seq<nat>)
    requires Opened(b, b2, picked)
    ensures |b.cohorts| < |b2.cohorts| && b2.cohorts[|b.cohorts|].members == picked
        && b2.cohorts[|b.cohorts|].selections == []
  {
    hide MarkedAll;
  }
}
