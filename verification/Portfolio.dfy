/** The paper portfolio as a ledger of append-only rows, one atomic step per locked transaction. */
module Portfolio {
  import opened Rows
  import opened Lifecycle
  import opened Accounts
  import opened Risk

  const DAY: int := 86_400_000_000  // microseconds

  datatype Mode = Automatic | Owner
  datatype Selection = Selection(mode: Mode, selected: set<nat>, at: int)
  datatype Closure = Closure(reason: string, superseding: Option<nat>, at: int)

  /** Capacity in use when the cohort was opened, frozen into the cohort. */
  datatype Snapshot = Snapshot(ids: set<nat>, total: int, legs: map<Leg, int>)

  datatype Cohort = Cohort(
    members: seq<nat>,
    generatedAt: int,
    deadline: int,
    base: Snapshot,
    selections: seq<Selection>,
    closure: Option<Closure>)

  datatype Book = Book(clock: int, activation: Option<int>, accounts: Ledger, cohorts: seq<Cohort>)

  function Active(b: Book): set<nat> {
    set id | id in b.accounts && AtRisk(b.accounts[id], b.clock)
  }

  function ToSet(ids: seq<nat>): set<nat> {
    set id | id in ids
  }

  // ---------- frozen capacity ----------

  function LegsOf(accounts: Ledger, ids: set<nat>): set<Leg> {
    set id, leg | id in ids && id in accounts && leg in Legs(accounts[id].rec) :: leg
  }

  ghost function SnapshotOf(b: Book, ids: set<nat>): Snapshot {
    Snapshot(ids, Usage(b.accounts, None, ids),
             map leg | leg in LegsOf(b.accounts, ids) :: Usage(b.accounts, Some(leg), ids))
  }

  ghost predicate SnapshotFits(b: Book, s: Snapshot, picked: set<nat>) {
    && s.total + Usage(b.accounts, None, picked) <= AGGREGATE_CAP
    && forall leg: Leg ::
         (if leg in s.legs then s.legs[leg] else 0) + Usage(b.accounts, Some(leg), picked) <= LEG_CAP
  }

  // ---------- closing a cohort and recording a selection ----------

  /** What closing cohort `i` does to one account: nobody is left waiting for the owner. */
  function CloseAccount(a: Account, member: bool, i: nat, now: int): Account {
    if member && StateNow(a, now) == Some(AwaitingOwnerDecision)
    then Marked(a, ClosedUnselected, FromClosure, i, now) else a
  }

  /** `close_cohort`: the first closure wins. */
  function CloseCohort(b: Book, i: nat, reason: string, superseding: Option<nat>): Book
    requires i < |b.cohorts|
  {
    var c := b.cohorts[i];
    var closed := if c.closure.Some? then c else c.(closure := Some(Closure(reason, superseding, b.clock)));
    b.(cohorts := b.cohorts[i := closed],
       accounts := map id | id in b.accounts :: CloseAccount(b.accounts[id], id in c.members, i, b.clock))
  }

  /** What a selection in cohort `i` does to one account. */
  function SelectAccount(a: Account, member: bool, selected: bool, i: nat, now: int): Account {
    var admitted := if selected then Admit(a, now) else a;
    if member && selected && StateNow(a, now) == Some(AwaitingOwnerDecision)
    then Marked(admitted, AdmittedAwaitingEntry, FromAdmission, i, now)
    else if member && !selected && StateNow(a, now) == Some(AdmittedAwaitingEntry)
    then Marked(admitted, AdmissionRevoked, FromAdmission, i, now)
    else admitted
  }

  function Selecting(b: Book, i: nat, selected: set<nat>, mode: Mode): Book
    requires i < |b.cohorts|
  {
    var c := b.cohorts[i];
    b.(cohorts := b.cohorts[i := c.(selections := c.selections + [Selection(mode, selected, b.clock)])],
       accounts := map id | id in b.accounts ::
         SelectAccount(b.accounts[id], id in c.members, id in selected, i, b.clock))
  }

  /** `_record_selection` on a cohort that has none yet. */
  function RecordSelection(b: Book, i: nat, selected: set<nat>, mode: Mode): Book
    requires i < |b.cohorts|
  {
    CloseCohort(Selecting(b, i, selected, mode), i, "selection_recorded", None)
  }

  // ---------- assessment of a batch ----------

  function Deadline(rec: Recommendation): int {
    if rec.generatedAt + DAY <= rec.maturity then rec.generatedAt + DAY else rec.maturity
  }

  predicate Pending(b: Book, id: nat) {
    && id in b.accounts && b.accounts[id].rec.action != Abstain
    && StateNow(b.accounts[id], b.clock) == Some(AwaitingPortfolioAssessment)
  }

  predicate TargetOpen(b: Book, target: nat) {
    exists i, id ::
      0 <= i < |b.cohorts| && id in b.cohorts[i].members
      && b.cohorts[i].closure.None? && id in b.accounts && b.accounts[id].rec.target == target
  }

  predicate Eligible(b: Book, id: nat, generatedAt: int)
    requires id in b.accounts
  {
    var a := b.accounts[id];
    && b.activation.Some? && b.activation.value <= a.rec.generatedAt
    && generatedAt < Deadline(a.rec)
    && a.size.Some?
    && !TargetOpen(b, a.rec.target)
  }

  predicate InSomeCohort(b: Book, id: nat) {
    exists i :: 0 <= i < |b.cohorts| && id in b.cohorts[i].members
  }

  function Reject(b: Book, rejected: set<nat>): Book {
    b.(accounts := map id | id in b.accounts ::
         if id in rejected then Marked(b.accounts[id], PortfolioIneligible, FromRecommendation, id, b.clock)
         else b.accounts[id])
  }

  function Ineligible(b: Book, ids: seq<nat>, generatedAt: int): set<nat> {
    set id | id in ToSet(ids) && Pending(b, id) && !Eligible(b, id, generatedAt)
  }

  predicate Candidate(b: Book, id: nat, generatedAt: int) {
    Pending(b, id) && Eligible(b, id, generatedAt) && !InSomeCohort(b, id)
  }

  function Candidates(b: Book, ids: seq<nat>, generatedAt: int): (r: seq<nat>)
    ensures forall id :: id in r <==> id in ids && Candidate(b, id, generatedAt)
  {
    if ids == [] then []
    else
      var rest := Candidates(b, ids[..|ids| - 1], generatedAt);
      var id := ids[|ids| - 1];
      if Candidate(b, id, generatedAt) then rest + [id] else rest
  }

  predicate Distinct(ids: seq<nat>) {
    forall i, j :: 0 <= i < j < |ids| ==> ids[i] != ids[j]
  }

  /** The earliest owner deadline among the candidates. */
  function MinDeadline(b: Book, ids: seq<nat>): (d: int)
    requires ids != [] && forall id :: id in ids ==> id in b.accounts
    ensures exists id :: id in ids && d == Deadline(b.accounts[id].rec)
    ensures forall id :: id in ids ==> d <= Deadline(b.accounts[id].rec)
  {
    var last := Deadline(b.accounts[ids[|ids| - 1]].rec);
    if |ids| == 1 then last
    else
      var rest := MinDeadline(b, ids[..|ids| - 1]);
      if rest <= last then rest else last
  }

  predicate SharesInstrument(b: Book, ids: seq<nat>, others: seq<nat>) {
    exists x, y :: x in ids && y in others && x in b.accounts && y in b.accounts
                   && b.accounts[x].rec.instrument == b.accounts[y].rec.instrument
  }

  predicate GivesWay(b: Book, older: Cohort, newer: Cohort) {
    older.closure.None? && older.generatedAt < newer.generatedAt && SharesInstrument(b, older.members, newer.members)
  }

  /** An older open cohort on a candidate's instrument gives way to the new cohort `n`. */
  function SupersedeOne(b: Book, before: Book, n: nat, i: nat): Book
    requires i < n < |b.cohorts| == |before.cohorts|
  {
    if GivesWay(b, b.cohorts[i], b.cohorts[n])
    then CloseCohort(before, i, "new_target_superseded", Some(n))
    else before
  }

  function Supersede(b: Book, n: nat, upTo: nat): (after: Book)
    requires upTo <= n < |b.cohorts|
    ensures |after.cohorts| == |b.cohorts|
  {
    if upTo == 0 then b else SupersedeOne(b, Supersede(b, n, upTo - 1), n, upTo - 1)
  }

  ghost function OpenCohort(b: Book, picked: seq<nat>, generatedAt: int, base: set<nat>): Book
    requires picked != [] && forall id :: id in picked ==> id in b.accounts
  {
    var c := Cohort(picked, generatedAt, MinDeadline(b, picked), SnapshotOf(b, base), [], None);
    b.(cohorts := b.cohorts + [c],
       accounts := map id | id in b.accounts ::
         if id in picked then Marked(b.accounts[id], AwaitingOwnerDecision, FromMember, |b.cohorts|, b.clock)
         else b.accounts[id])
  }

  /** A new cohort is admitted whole when it fits beside the base, and otherwise left to the owner. */
  ghost function AssessPicked(b: Book, picked: seq<nat>, generatedAt: int): Book
    requires picked != [] && forall id :: id in picked ==> id in b.accounts
  {
    var n := |b.cohorts|;
    var base := Active(b) - ToSet(picked);
    var proposal := Supersede(OpenCohort(b, picked, generatedAt, base), n, n);
    if Fits(b.accounts, base + ToSet(picked))
    then RecordSelection(proposal, n, ToSet(picked), Automatic)
    else proposal
  }

  datatype Refused =
    | UnknownRecommendation | DuplicateRow | InvalidSize | UnknownCohort
    | NotOwner | OutsideCohort | CohortClosed | ExceedsRiskPolicy
    | Illegal(why: Refusal)

  /** A refused transaction rolls back, so it leaves the ledger as it was. */
  datatype Result = Done(book: Book) | Failed(why: Refused)

  ghost function Assess(b: Book, ids: seq<nat>, generatedAt: int): Result {
    if exists id :: id in ids && id !in b.accounts then Failed(UnknownRecommendation)
    else
      var b1 := Reject(b, Ineligible(b, ids, generatedAt));
      var picked := Candidates(b, ids, generatedAt);
      if picked == [] then Done(b1)
      else if !Distinct(picked) then Failed(DuplicateRow)
      else Done(AssessPicked(b1, picked, generatedAt))
  }

  // ---------- the owner's selection ----------

  /** `triggered` is the market's verdict on whether an entry price of the cohort already traded. */
  predicate CohortIsOpen(b: Book, i: nat, triggered: bool)
    requires i < |b.cohorts|
  {
    var c := b.cohorts[i];
    && c.closure.None?
    && b.clock < c.deadline
    && c.selections == []
    && (forall id :: id in c.members && id in b.accounts ==> b.accounts[id].facts == [])
    && !triggered
  }

  ghost function Select(b: Book, isOwner: bool, i: nat, picked: set<nat>, triggered: bool): Result {
    if !isOwner then Failed(NotOwner)
    else if |b.cohorts| <= i then Failed(UnknownCohort)
    else
      var c := b.cohorts[i];
      var members := ToSet(c.members);
      if !(picked <= members) then Failed(OutsideCohort)
      else if c.selections != [] && c.selections[|c.selections| - 1].selected == picked then Done(b)
      else if !CohortIsOpen(b, i, triggered) then Failed(CohortClosed)
      else if !SnapshotFits(b, c.base, picked) || !Fits(b.accounts, (Active(b) - members) + picked)
      then Failed(ExceedsRiskPolicy)
      else Done(RecordSelection(b, i, picked, Owner))
  }

  // ---------- facts from the paper simulator and the reconciler ----------

  predicate PaperState(s: State) {
    s in {Entered, TargetHit, Invalidated, ExpiredAfterEntry, ExpiredNotActivated, ExpiredUnobserved,
          MissingData, Cancelled}
  }

  function SourceOf(s: State, id: nat): Source {
    Source(if NeedsCoverageFact(s) then FromCoverageFact else if s == Entered then FromEntry else FromResult, id, id)
  }

  predicate HasFact(facts: seq<Row<State>>, s: State) {
    exists k :: 0 <= k < |facts| && facts[k].value == s
  }

  /** `_record_lifecycle`: get or create the coverage fact, then extend the chain. */
  function RecordAccount(a: Account, chain: Chain, state: State, now: int): Account {
    var facts := if NeedsCoverageFact(state) && !HasFact(a.facts, state) then a.facts + [Row(state, now)] else a.facts;
    a.(chain := chain, facts := facts)
  }

  function Record(b: Book, id: nat, state: State, evidenceHolds: bool): Result {
    if id !in b.accounts then Failed(UnknownRecommendation)
    else
      var a := b.accounts[id];
      match Transition(a.rec, a.chain, Request(state, SourceOf(state, id), evidenceHolds, b.clock))
      case Refused(why) => Failed(Illegal(why))
      case Kept(chain) => Done(b.(accounts := b.accounts[id := RecordAccount(a, chain, state, b.clock)]))
  }

  // ---------- issuing and sizing ----------

  function Issue(b: Book, rec: Recommendation): Result {
    if rec.id in b.accounts then Failed(DuplicateRow)
    else Done(b.(accounts := b.accounts[rec.id := Account(rec, None, [Root(rec)], [], [])]))
  }

  function Size(b: Book, id: nat, risk: int): Result {
    if id !in b.accounts then Failed(UnknownRecommendation)
    else if b.accounts[id].size.Some? || b.accounts[id].rec.action == Abstain then Done(b)
    else if !(0 < risk <= SETUP_CAP) then Failed(InvalidSize)
    else Done(b.(accounts := b.accounts[id := b.accounts[id].(size := Some(risk))]))
  }

  // ---------- whole runs ----------

  datatype Command =
    | Tick(elapsed: nat)
    | Activate
    | IssueRec(rec: Recommendation)
    | SizeRec(id: nat, risk: int)
    | AssessBatch(ids: seq<nat>, generatedAt: int)
    | SelectCohort(isOwner: bool, cohort: nat, picked: set<nat>, triggered: bool)
    | Close(cohort: nat, reason: string)
    | RecordFact(id: nat, state: State, evidenceHolds: bool)

  ghost function Try(b: Book, c: Command): Result {
    match c
    case Tick(d) => Done(b.(clock := b.clock + d))
    case Activate => Done(if b.activation.Some? then b else b.(activation := Some(b.clock)))
    case IssueRec(rec) => Issue(b, rec)
    case SizeRec(id, risk) => Size(b, id, risk)
    case AssessBatch(ids, g) => Assess(b, ids, g)
    case SelectCohort(o, i, picked, t) => Select(b, o, i, picked, t)
    case Close(i, reason) => if i < |b.cohorts| then Done(CloseCohort(b, i, reason, None)) else Failed(UnknownCohort)
    case RecordFact(id, s, ok) => if PaperState(s) then Record(b, id, s, ok) else Failed(Illegal(IllegalTransition))
  }

  ghost function Step(b: Book, c: Command): Book {
    match Try(b, c)
    case Done(after) => after
    case Failed(_) => b
  }

  function Empty(clock: int): Book {
    Book(clock, None, map[], [])
  }

  ghost function Run(b: Book, commands: seq<Command>): Book {
    if commands == [] then b else Step(Run(b, commands[..|commands| - 1]), commands[|commands| - 1])
  }
}
