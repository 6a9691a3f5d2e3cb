/** The ledger invariant, and how each row-level change keeps it. */
module PortfolioSafety {
  import opened Rows
  import opened Lifecycle
  import opened Accounts
  import opened Risk
  import opened Portfolio

  // ---------- one account ----------

  /** State at the end of a chain. */
  function End(a: Account): Option<State> {
    if a.chain == [] then None else Some(Tail(a.chain))
  }

  predicate RiskBearing(a: Account) {
    End(a) in {Some(AdmittedAwaitingEntry), Some(Entered)}
  }

  ghost predicate ChainSound(rec: Recommendation, chain: Chain, now: int) {
    && ValidChain(rec, chain)
    && forall k :: 0 < k < |chain| ==> chain[k].at <= now
  }

  ghost predicate AdmissionsSound(rows: seq<Row<AdmissionState>>, now: int) {
    forall k :: 0 <= k < |rows| ==> rows[k].value == Admitted && rows[k].at <= now
  }

  ghost predicate AccountOk(a: Account, now: int) {
    && ChainSound(a.rec, a.chain, now)
    && AdmissionsSound(a.admissions, now)
    && (a.size.Some? ==> 0 < a.size.value <= SETUP_CAP && a.rec.action != Abstain)
    && (a.admissions != [] ==> a.size.Some?)
    && (RiskBearing(a) ==> a.admissions != [])
    && End(a) != Some(AdmissionRevoked)
  }

  /** What a reader at the ledger's clock sees of a sound account. */
  lemma ReadAccount(a: Account, now: int)
    requires AccountOk(a, now)
    ensures End(a).Some?
    ensures StateNow(a, now) == if a.rec.generatedAt <= now then End(a) else None
    ensures now < a.rec.generatedAt ==> End(a) == Some(Initial(a.rec))
    ensures a.rec.action == Abstain ==> End(a) == Some(Abstained)
    ensures AdmissionNow(a, now) == if a.admissions == [] then None else Some(Admitted)
  {
    ProjectionNow(a.rec, a.chain, now);
    assert |a.chain| > 1 ==>
      a.chain[0].at <= a.chain[1].at && a.chain[1].value.state in Successors(a.chain[0].value.state);
    VisibleAll(a.admissions, now);
    if a.admissions != [] {
      LatestIsMaximal(a.admissions, 0);
    }
  }

  /** Admission and lifecycle never disagree: a recommendation counts against the caps exactly when its
      chain ends in a risk-bearing state, and then its latest admission is ADMITTED and it is sized. */
  lemma AtRiskByEnd(a: Account, now: int)
    requires AccountOk(a, now)
    ensures AtRisk(a, now) <==> RiskBearing(a)
    ensures RiskBearing(a) ==> a.size.Some? && AdmissionNow(a, now) == Some(Admitted)
  {
    ReadAccount(a, now);
  }

  lemma MarkedOk(a: Account, state: State, kind: SourceKind, key: nat, now: int)
    requires AccountOk(a, now) && a.rec.generatedAt <= now && state in Successors(End(a).value)
    requires state != AdmissionRevoked && (state in {AdmittedAwaitingEntry, Entered} ==> a.admissions != [])
    ensures var after := Marked(a, state, kind, key, now); AccountOk(after, now) && End(after) == Some(state)
  {
    ExtendSound(a.rec, a.chain, now, Row(Event(state, Source(kind, key, a.rec.id)), now));
  }

  lemma ExtendSound(rec: Recommendation, chain: Chain, now: int, row: Row<Event>)
    requires ChainSound(rec, chain, now) && rec.generatedAt <= now && row.at == now
    requires row.value.state in Successors(Tail(chain))
    ensures ChainSound(rec, chain + [row], now) && Tail(chain + [row]) == row.value.state
  {
    assert chain[0].at == rec.generatedAt;
  }

  lemma CloseAccountOk(a: Account, member: bool, i: nat, now: int)
    requires AccountOk(a, now)
    ensures var after := CloseAccount(a, member, i, now);
            && AccountOk(after, now) && after == a.(chain := after.chain)
            && End(after) ==
                 (if member && End(a) == Some(AwaitingOwnerDecision) then Some(ClosedUnselected) else End(a))
  {
    ReadAccount(a, now);
    if member && End(a) == Some(AwaitingOwnerDecision) {
      MarkedOk(a, ClosedUnselected, FromClosure, i, now);
    }
  }

  lemma AdmitOk(a: Account, now: int)
    requires AccountOk(a, now) && a.size.Some?
    ensures AccountOk(Admit(a, now), now)
  {
  }

  lemma SelectAccountOk(a: Account, member: bool, selected: bool, i: nat, now: int)
    requires AccountOk(a, now)
    requires selected ==> a.size.Some?
    requires member ==> a.admissions == []
    ensures var after := SelectAccount(a, member, selected, i, now);
            && AccountOk(after, now)
            && after == a.(
                 chain := after.chain,
                 admissions := if selected then a.admissions + [Row(Admitted, now)] else a.admissions)
            && End(after) == if member && selected && End(a) == Some(AwaitingOwnerDecision)
                             then Some(AdmittedAwaitingEntry) else End(a)
  {
    hide ChainSound, AdmissionsSound;
    ReadAccount(a, now);
    if selected {
      AdmitOk(a, now);
      if member && End(a) == Some(AwaitingOwnerDecision) {
        MarkedOk(Admit(a, now), AdmittedAwaitingEntry, FromAdmission, i, now);
      }
    }
  }

  /** An accepted transition adds at most one legal row. */
  lemma TransitionAdds(rec: Recommendation, chain: Chain, req: Request, now: int)
    requires ChainSound(rec, chain, now) && req.occurredAt == now
    ensures var out := Transition(rec, chain, req);
            out.Kept? ==>
              && ChainSound(rec, out.chain, now)
              && (out.chain == chain || (req.state in Successors(Tail(chain)) && Tail(out.chain) == req.state))
  {
    TransitionKeepsChain(rec, chain, req);
    LatestIsTail(chain);
  }

  /** One accepted fact from the simulator or the reconciler. */
  lemma RecordAccountOk(a: Account, req: Request, now: int)
    requires AccountOk(a, now) && PaperState(req.state) && req.occurredAt == now
    requires Transition(a.rec, a.chain, req).Kept?
    ensures var after := RecordAccount(a, Transition(a.rec, a.chain, req).chain, req.state, now);
            && AccountOk(after, now) && after == a.(chain := after.chain, facts := after.facts)
            && (RiskBearing(after) ==> RiskBearing(a))
            && (End(after) == Some(AwaitingOwnerDecision) ==> End(a) == Some(AwaitingOwnerDecision))
  {
    TransitionAdds(a.rec, a.chain, req, now);
    var after := RecordAccount(a, Transition(a.rec, a.chain, req).chain, req.state, now);
    assert End(after) == End(a) || (req.state in Successors(End(a).value) && End(after) == Some(req.state));
  }

  // ---------- the whole ledger ----------

  ghost predicate AccountsOk(b: Book) {
    forall id :: id in b.accounts ==> b.accounts[id].rec.id == id && AccountOk(b.accounts[id], b.clock)
  }

  ghost predicate MemberOk(a: Account, c: Cohort) {
    && a.size.Some?
    && (c.selections == [] ==> a.admissions == [])
    && (c.closure.Some? ==> End(a) != Some(AwaitingOwnerDecision))
  }

  ghost predicate CohortOk(b: Book, c: Cohort) {
    && Distinct(c.members)
    && |c.selections| <= 1
    && (c.selections != [] ==> c.selections[0].selected <= ToSet(c.members))
    && forall id :: id in c.members ==> id in b.accounts && MemberOk(b.accounts[id], c)
  }

  /** A recommendation is decided in one cohort only. */
  ghost predicate NoOverlap(b: Book) {
    forall i, j, id ::
      0 <= i < |b.cohorts| && 0 <= j < |b.cohorts| && id in b.cohorts[i].members && id in b.cohorts[j].members
      ==> i == j
  }

  ghost predicate CohortsOk(b: Book) {
    NoOverlap(b) && forall i :: 0 <= i < |b.cohorts| ==> CohortOk(b, b.cohorts[i])
  }

  /** Whoever waits for the owner or was ever admitted belongs to a cohort. */
  ghost predicate Covered(b: Book) {
    forall id :: id in b.accounts
                 && (End(b.accounts[id]) == Some(AwaitingOwnerDecision) || b.accounts[id].admissions != [])
                 ==> InSomeCohort(b, id)
  }

  /** A selected cohort is closed. */
  ghost predicate Sealed(b: Book) {
    forall i :: 0 <= i < |b.cohorts| && b.cohorts[i].selections != [] ==> b.cohorts[i].closure.Some?
  }

  ghost predicate Sound(b: Book) {
    AccountsOk(b) && CohortsOk(b) && Covered(b)
  }

  ghost predicate WithinCaps(b: Book) {
    Fits(b.accounts, Active(b))
  }

  ghost predicate Inv(b: Book) {
    Sound(b) && Sealed(b) && WithinCaps(b)
  }

  ghost predicate Bearing(b: Book, id: nat) {
    id in b.accounts && RiskBearing(b.accounts[id])
  }

  lemma ActiveByEnd(b: Book)
    requires AccountsOk(b)
    ensures forall id :: id in Active(b) <==> Bearing(b, id)
    ensures forall id :: id in Active(b) ==> id in b.accounts
  {
    forall id | id in b.accounts
      ensures AtRisk(b.accounts[id], b.clock) <==> RiskBearing(b.accounts[id])
    {
      AtRiskByEnd(b.accounts[id], b.clock);
    }
  }

  lemma SizesPositive(b: Book)
    requires AccountsOk(b)
    ensures Positive(b.accounts)
  {
  }

  /** Same recommendations and sizes, possibly with other rows. */
  ghost predicate SameRisk(b: Book, after: Book) {
    && after.clock == b.clock
    && after.accounts.Keys == b.accounts.Keys
    && forall id :: id in b.accounts ==>
         after.accounts[id].rec == b.accounts[id].rec && after.accounts[id].size == b.accounts[id].size
  }

  /** Fewer risk-bearing recommendations of the same sizes stay within the caps. */
  lemma FewerBearing(b: Book, after: Book, bound: set<nat>)
    requires AccountsOk(b) && AccountsOk(after) && SameRisk(b, after)
    requires Fits(b.accounts, bound) && forall id :: Bearing(after, id) ==> id in bound
    ensures WithinCaps(after)
  {
    ActiveByEnd(after);
    SizesPositive(b);
    SubsetFits(b.accounts, Active(after), bound);
    FitsDepends(b.accounts, after.accounts, Active(after));
  }

  // ---------- changes that leave the cohort table alone ----------

  /** The account stays as good a cohort member as it was. */
  ghost predicate Keeps(a: Account, after: Account) {
    && (a.size.Some? ==> after.size.Some?)
    && after.admissions == a.admissions
    && (End(after) == Some(AwaitingOwnerDecision) ==> End(a) == Some(AwaitingOwnerDecision))
  }

  /** Nobody has to be in a cohort because of this account. */
  ghost predicate Loose(a: Account) {
    End(a) != Some(AwaitingOwnerDecision) && a.admissions == []
  }

  lemma MemberKept(a: Account, after: Account, c: Cohort)
    requires Keeps(a, after) && MemberOk(a, c)
    ensures MemberOk(after, c)
  {
  }

  lemma CohortKept(b: Book, after: Book, c: Cohort)
    requires CohortOk(b, c)
    requires forall id :: id in c.members && id in b.accounts ==>
               id in after.accounts && Keeps(b.accounts[id], after.accounts[id])
    ensures CohortOk(after, c)
  {
    hide Keeps, MemberOk, Distinct, ToSet;
    forall id | id in c.members
      ensures id in after.accounts && MemberOk(after.accounts[id], c)
    {
      MemberKept(b.accounts[id], after.accounts[id], c);
    }
  }

  lemma SameCohortsCover(b: Book, after: Book)
    requires Covered(b) && after.cohorts == b.cohorts
    requires forall id :: id in b.accounts && id in after.accounts ==> Keeps(b.accounts[id], after.accounts[id])
    requires forall id :: id in after.accounts && id !in b.accounts ==> Loose(after.accounts[id])
    ensures Covered(after)
  {
    hide InSomeCohort, End;
    forall id | id in after.accounts
      ensures InSomeCohort(after, id) == InSomeCohort(b, id)
    {
      SameCohortsHold(b, after, id);
    }
  }

  lemma SameCohortsHold(b: Book, after: Book, id: nat)
    requires after.cohorts == b.cohorts
    ensures InSomeCohort(after, id) == InSomeCohort(b, id)
  {
  }

  /** With the same cohort table, accounts that keep their standing keep the cohorts sound. */
  lemma CohortsKept(b: Book, after: Book)
    requires CohortsOk(b) && Covered(b) && after.cohorts == b.cohorts
    requires forall id :: id in b.accounts ==> id in after.accounts && Keeps(b.accounts[id], after.accounts[id])
    requires forall id :: id in after.accounts && id !in b.accounts ==> Loose(after.accounts[id])
    ensures CohortsOk(after) && Covered(after)
  {
    hide Keeps, CohortOk, Covered, Loose;
    SameCohortsCover(b, after);
    forall j | 0 <= j < |after.cohorts|
      ensures CohortOk(after, after.cohorts[j])
    {
      CohortKept(b, after, b.cohorts[j]);
    }
  }

  lemma StaysTheSame(a: Account)
    ensures Keeps(a, a)
  {
  }
}
