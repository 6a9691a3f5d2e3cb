/** What a cohort froze when it was opened, told from any later ledger. */
module PortfolioSnapshots {
  import opened Rows
  import opened Accounts
  import opened Risk
  import opened Portfolio
  import opened PortfolioSafety
  import opened PortfolioRuns
  import Lifecycle

  /** The cohort's row itself: everything but its selections and its closure. */
  predicate SameRow(c: Cohort, after: Cohort) {
    after.members == c.members && after.generatedAt == c.generatedAt && after.deadline == c.deadline
        && after.base == c.base
  }

  predicate RowsKept(b: Book, after: Book) {
    |b.cohorts| <= |after.cohorts| && forall i :: 0 <= i < |b.cohorts| ==> SameRow(b.cohorts[i], after.cohorts[i])
  }

  lemma RecordKeepsRows(b: Book, i: nat, selected: set<nat>, mode: Mode)
    requires i < |b.cohorts|
    ensures RowsKept(b, RecordSelection(b, i, selected, mode))
        && |RecordSelection(b, i, selected, mode).cohorts| == |b.cohorts|
  {
  }

  lemma {:induction false} SupersedeKeepsRows(b: Book, n: nat, upTo: nat)
    requires upTo <= n < |b.cohorts|
    ensures RowsKept(b, Supersede(b, n, upTo))
  {
    hide GivesWay;
    if upTo > 0 { SupersedeKeepsRows(b, n, upTo - 1); }
  }

  lemma RowsKeptTwice(b: Book, middle: Book, after: Book)
    requires RowsKept(b, middle) && RowsKept(middle, after)
    ensures RowsKept(b, after)
  {
  }

  /** A new cohort is one row behind the others, with the snapshot it was given. */
  lemma OpenAddsRow(b: Book, picked: seq<nat>, generatedAt: int)
    requires picked != [] && forall id :: id in picked ==> id in b.accounts
    ensures var after := AssessPicked(b, picked, generatedAt);
            && RowsKept(b, after) && |after.cohorts| == |b.cohorts| + 1
            && after.cohorts[|b.cohorts|].base == SnapshotOf(b, Active(b) - ToSet(picked))
  {
    hide Fits, RecordSelection, Supersede, Active, SnapshotOf;
    var n, base := |b.cohorts|, Active(b) - ToSet(picked);
    var proposed := OpenCohort(b, picked, generatedAt, base);
    assert RowsKept(b, proposed) && proposed.cohorts[n].base == SnapshotOf(b, base);
    SupersedeKeepsRows(proposed, n, n);
    var proposal := Supersede(proposed, n, n);
    RowsKeptTwice(b, proposed, proposal);
    RecordKeepsRows(proposal, n, ToSet(picked), Automatic);
    RowsKeptTwice(b, proposal, RecordSelection(proposal, n, ToSet(picked), Automatic));
  }

  /** The snapshot says what the active recommendations of `b` used, in total and on every leg. */
  ghost predicate Exact(s: Snapshot, b: Book) {
    && s.ids == Active(b)
    && s.total == Usage(b.accounts, None, Active(b))
    && forall leg: Leg :: (if leg in s.legs then s.legs[leg] else 0) == Usage(b.accounts, Some(leg), Active(b))
  }

  /** The frozen sums: reading absent legs as zero, every leg is exact. */
  lemma SnapshotReads(b: Book, ids: set<nat>, leg: Leg)
    ensures var s := SnapshotOf(b, ids);
            (if leg in s.legs then s.legs[leg] else 0) == Usage(b.accounts, Some(leg), ids)
  {
    if leg !in LegsOf(b.accounts, ids) {
      UntouchedLeg(b, ids, leg);
    }
  }

  lemma {:induction false} UntouchedLeg(b: Book, ids: set<nat>, leg: Leg)
    requires leg !in LegsOf(b.accounts, ids)
    ensures Usage(b.accounts, Some(leg), ids) == 0
    decreases ids
  {
    if ids != {} {
      var id :| id in ids;
      assert leg !in LegsOf(b.accounts, ids - {id});
      UntouchedLeg(b, ids - {id}, leg);
      UsageRemove(b.accounts, Some(leg), ids, id);
    }
  }

  /** Rejecting part of a batch first changes no active risk. */
  lemma RejectSameUsage(b: Book, rejected: set<nat>)
    requires Inv(b) && AllPending(b, rejected)
    ensures var after := Reject(b, rejected);
            && Active(after) == Active(b)
            && forall leg: Option<Leg> :: Usage(after.accounts, leg, Active(b)) == Usage(b.accounts, leg, Active(b))
  {
    hide AccountOk, End, Fits, Active, CohortsOk, Covered;
    var after := Reject(b, rejected);
    RejectShape(b, rejected);
    RejectInv(b, after, rejected);
    RejectedSame(b, after, rejected);
    SameActive(b, after);
    forall leg: Option<Leg>
      ensures Usage(after.accounts, leg, Active(b)) == Usage(b.accounts, leg, Active(b))
    {
      UsageDepends(b.accounts, after.accounts, leg, Active(b));
    }
  }

  lemma RejectedSame(b: Book, after: Book, rejected: set<nat>)
    requires AllPending(b, rejected) && after == Reject(b, rejected) && AccountsOk(b)
    requires MarkedAll(b, after, rejected, Lifecycle.PortfolioIneligible)
    ensures forall id :: Bearing(after, id) <==> Bearing(b, id)
    ensures after.accounts.Keys == b.accounts.Keys && SameRisk(b, after)
  {
    hide AccountOk;
  }

  /** Whoever is picked waits, so nobody picked counts against the caps yet. */
  lemma PickedNotActive(b: Book, picked: seq<nat>)
    requires Inv(b) && forall id :: id in picked ==> Ready(b, id)
    ensures Active(b) - ToSet(picked) == Active(b)
  {
    hide AccountOk, Fits, CohortsOk, Covered, Active;
    ActiveByEnd(b);
    assert forall id :: id in picked ==> !Bearing(b, id);
  }

  /** Only a batch opens a cohort, one at a time and with an exact snapshot of the ledger it found. */
  lemma StepOpens(b: Book, c: Command)
    requires Inv(b)
    ensures RowsKept(b, Step(b, c)) && |Step(b, c).cohorts| <= |b.cohorts| + 1
    ensures |Step(b, c).cohorts| == |b.cohorts| + 1 ==> c.AssessBatch? && Exact(Step(b, c).cohorts[|b.cohorts|].base, b)
  {
    hide Inv, Exact, Assess, RecordSelection, SnapshotFits, Fits, CohortIsOpen, Active;
    match c
    case AssessBatch(ids, g) => BatchOpens(b, ids, g);
    case SelectCohort(o, i, picked, t) => if i < |b.cohorts| { RecordKeepsRows(b, i, picked, Owner); }
    case _ =>
  }

  lemma BatchOpens(b: Book, ids: seq<nat>, generatedAt: int)
    requires Inv(b)
    ensures var r := Assess(b, ids, generatedAt);
            r.Done? ==>
              && RowsKept(b, r.book) && |r.book.cohorts| <= |b.cohorts| + 1
              && (|r.book.cohorts| == |b.cohorts| + 1 ==> Exact(r.book.cohorts[|b.cohorts|].base, b))
  {
    hide Inv, AssessPicked, Active, Exact, SnapshotOf;
    var rejected, picked := Ineligible(b, ids, generatedAt), Candidates(b, ids, generatedAt);
    assert AccountsOk(b) by { assert Inv(b); InvAccounts(b); }
    BatchSplits(b, ids, generatedAt);
    RejectSameUsage(b, rejected);
    RejectShape(b, rejected);
    var b1 := Reject(b, rejected);
    RejectInv(b, b1, rejected);
    if picked != [] && Distinct(picked) {
      StillReady(b, rejected, picked);
      OpenAddsRow(b1, picked, generatedAt);
      PickedNotActive(b1, picked);
      ExactFrom(b, b1);
    }
  }

  lemma InvAccounts(b: Book)
    requires Inv(b)
    ensures AccountsOk(b)
  {
  }

  lemma StillReady(b: Book, rejected: set<nat>, picked: seq<nat>)
    requires forall id :: id in picked ==> Ready(b, id) && id !in rejected
    ensures forall id :: id in picked ==> id in Reject(b, rejected).accounts && Ready(Reject(b, rejected), id)
  {
    forall id | id in picked
      ensures id in Reject(b, rejected).accounts && Ready(Reject(b, rejected), id)
    {
      assert Ready(b, id);
    }
  }

  lemma ExactFrom(b: Book, b1: Book)
    requires Active(b1) == Active(b)
    requires forall leg: Option<Leg> :: Usage(b1.accounts, leg, Active(b)) == Usage(b.accounts, leg, Active(b))
    ensures Exact(SnapshotOf(b1, Active(b1)), b)
  {
    hide Active, Usage;
    forall leg: Leg
      ensures var s := SnapshotOf(b1, Active(b1));
              (if leg in s.legs then s.legs[leg] else 0) == Usage(b.accounts, Some(leg), Active(b))
    {
      SnapshotReads(b1, Active(b1), leg);
    }
  }

  /** In every run each cohort's frozen snapshot is exact: it was taken by one batch, and still says what the active
      recommendations used just before that batch - in total and, reading absent legs as zero, on every leg. */
  lemma {:induction false} SnapshotIsExact(clock: int, commands: seq<Command>, i: nat) returns (n: nat)
    requires i < |Run(Empty(clock), commands).cohorts|
    ensures n < |commands| && commands[n].AssessBatch?
    ensures var before := Run(Empty(clock), commands[..n]);
            |before.cohorts| == i && Exact(Run(Empty(clock), commands).cohorts[i].base, before)
  {
    hide Step, Exact, Inv;
    var last := |commands| - 1;
    var front := commands[..last];
    var b := Run(Empty(clock), front);
    RunInv(clock, front);
    StepOpens(b, commands[last]);
    if i < |b.cohorts| {
      n := SnapshotIsExact(clock, front, i);
      assert front[..n] == commands[..n];
    } else {
      n := last;
    }
  }
}
