/** The attempt ledger of a historical dataset: one list of attempts for each planned chunk. */
module Acquisition {
  import opened Rows
  import Coverage

  type Key = nat

  datatype Status = Running | Succeeded | Failed | Quarantined

  /** One attempt with its ingestion run; `accepted` says its manifest passed validation. */
  datatype Attempt = Attempt(number: nat, status: Status, startedAt: int, accepted: bool)

  datatype Ledger = Ledger(chunks: map<Key, seq<Attempt>>, registered: bool)

  datatype Command =
    | Begin(key: Key, now: int)
    | Finish(key: Key, number: nat, status: Status, accepted: bool)
    | ResolveStale(key: Key, number: nat, threshold: int, reasonGiven: bool, now: int)
    | Register(evidenceHolds: bool)

  datatype Refusal =
    | UnknownChunk | Sealed | AlreadyRunning | NotRunning | NotStale | BadThreshold | ReasonRequired
    | NotTerminal | NotInPlan | UnfinishedAttempt | NotExactlyOneSuccess | InvalidEvidence
  datatype Outcome = Done(ledger: Ledger) | Kept(number: nat) | Refused(why: Refusal)

  function MaxNumber(attempts: seq<Attempt>): nat {
    if attempts == [] then 0
    else
      var rest := MaxNumber(attempts[..|attempts| - 1]);
      var last := attempts[|attempts| - 1].number;
      if last > rest then last else rest
  }

  /** Position of the first attempt of a status. */
  function Find(attempts: seq<Attempt>, status: Status, k: nat): (i: Option<nat>)
    requires k <= |attempts|
    ensures i.Some? ==> k <= i.value < |attempts| && attempts[i.value].status == status
    ensures i.None? ==> forall j :: k <= j < |attempts| ==> attempts[j].status != status
    decreases |attempts| - k
  {
    if k == |attempts| then None else if attempts[k].status == status then Some(k) else Find(attempts, status, k + 1)
  }

  function Numbered(attempts: seq<Attempt>, number: nat, k: nat): (i: Option<nat>)
    requires k <= |attempts|
    ensures i.Some? ==> k <= i.value < |attempts| && attempts[i.value].number == number
    decreases |attempts| - k
  {
    if k == |attempts| then None
    else if attempts[k].number == number then Some(k)
    else Numbered(attempts, number, k + 1)
  }

  function CountSucceeded(attempts: seq<Attempt>): nat {
    if attempts == [] then 0
    else CountSucceeded(attempts[..|attempts| - 1]) + if attempts[|attempts| - 1].status.Succeeded? then 1 else 0
  }

  /** `begin_historical_attempt` */
  function BeginAttempt(l: Ledger, key: Key, now: int): Outcome {
    if key !in l.chunks then Refused(UnknownChunk)
    else if l.registered then Refused(Sealed)
    else
      var attempts := l.chunks[key];
      var successful := Find(attempts, Succeeded, 0);
      if successful.Some? then Kept(attempts[successful.value].number)
      else if Find(attempts, Running, 0).Some? then Refused(AlreadyRunning)
      else Done(l.(chunks := l.chunks[key := attempts + [Attempt(MaxNumber(attempts) + 1, Running, now, false)]]))
  }

  /** A running run becomes terminal: stored, quarantined, or failed by `_record_historical_failure`. */
  function FinishAttempt(l: Ledger, key: Key, number: nat, status: Status, accepted: bool): Outcome {
    if key !in l.chunks then Refused(UnknownChunk)
    else
      var attempts := l.chunks[key];
      var i := Numbered(attempts, number, 0);
      if i.None? || !attempts[i.value].status.Running? then Refused(NotRunning)
      else if status.Running? then Refused(NotTerminal)
      else
        var finished := attempts[i.value].(status := status, accepted := accepted && status.Succeeded?);
        Done(l.(chunks := l.chunks[key := attempts[i.value := finished]]))
  }

  /** `resolve_stale_historical_attempt` */
  function ResolveStaleAttempt(l: Ledger, key: Key, number: nat, threshold: int, reasonGiven: bool, now: int): Outcome {
    if threshold <= 0 then Refused(BadThreshold)
    else if !reasonGiven then Refused(ReasonRequired)
    else if key !in l.chunks then Refused(UnknownChunk)
    else if l.registered then Refused(Sealed)
    else
      var i := Numbered(l.chunks[key], number, 0);
      if i.None? || !l.chunks[key][i.value].status.Running? then Refused(NotRunning)
      else if l.chunks[key][i.value].startedAt > now - threshold then Refused(NotStale)
      else FinishAttempt(l, key, number, Failed, false)
  }

  predicate SuccessesAccepted(attempts: seq<Attempt>) {
    forall k :: 0 <= k < |attempts| && attempts[k].status.Succeeded? ==> attempts[k].accepted
  }

  /** The ledger checks of `register_historical_dataset`; the other evidence is one verdict. */
  function RegisterDataset(l: Ledger, evidenceHolds: bool): Outcome {
    if l.registered then Done(l)
    else if l.chunks == map[] then Refused(NotInPlan)
    else if !(forall key :: key in l.chunks ==> Find(l.chunks[key], Running, 0).None?) then Refused(UnfinishedAttempt)
    else if !(forall key :: key in l.chunks ==> CountSucceeded(l.chunks[key]) == 1) then Refused(NotExactlyOneSuccess)
    else if !evidenceHolds || !(forall key :: key in l.chunks ==> SuccessesAccepted(l.chunks[key]))
    then Refused(InvalidEvidence)
    else Done(l.(registered := true))
  }

  function Try(l: Ledger, c: Command): Outcome {
    match c
    case Begin(key, now) => BeginAttempt(l, key, now)
    case Finish(key, number, status, accepted) => FinishAttempt(l, key, number, status, accepted)
    case ResolveStale(key, number, threshold, reasonGiven, now) =>
      ResolveStaleAttempt(l, key, number, threshold, reasonGiven, now)
    case Register(evidenceHolds) => RegisterDataset(l, evidenceHolds)
  }

  function Step(l: Ledger, c: Command): Ledger {
    var out := Try(l, c);
    if out.Done? then out.ledger else l
  }

  function RunAll(l: Ledger, commands: seq<Command>): Ledger {
    if commands == [] then l
    else Step(RunAll(l, commands[..|commands| - 1]), commands[|commands| - 1])
  }

  // ---------- the shape of a ledger ----------

  /** Densely numbered from 1, and only the last attempt may be running or successful. */
  predicate Shape(attempts: seq<Attempt>) {
    && (forall i :: 0 <= i < |attempts| ==> attempts[i].number == i + 1)
    && (forall i :: 0 <= i < |attempts| - 1 ==> attempts[i].status in {Failed, Quarantined})
  }

  predicate Finished(attempts: seq<Attempt>) {
    attempts != [] && attempts[|attempts| - 1].status.Succeeded? && attempts[|attempts| - 1].accepted
  }

  ghost predicate WellKept(l: Ledger) {
    && (forall key :: key in l.chunks ==> Shape(l.chunks[key]))
    && (l.registered ==> forall key :: key in l.chunks ==> Finished(l.chunks[key]))
  }

  lemma {:induction false} MaxIsLength(attempts: seq<Attempt>)
    requires forall i :: 0 <= i < |attempts| ==> attempts[i].number == i + 1
    ensures MaxNumber(attempts) == |attempts|
  {
    if attempts != [] { MaxIsLength(attempts[..|attempts| - 1]); }
  }

  lemma {:induction false} CountsLast(attempts: seq<Attempt>)
    requires Shape(attempts)
    ensures CountSucceeded(attempts) == if attempts != [] && attempts[|attempts| - 1].status.Succeeded? then 1 else 0
  {
    if attempts != [] {
      NoneSucceeded(attempts[..|attempts| - 1]);
    }
  }

  lemma {:induction false} NoneSucceeded(attempts: seq<Attempt>)
    requires forall i :: 0 <= i < |attempts| ==> !attempts[i].status.Succeeded?
    ensures CountSucceeded(attempts) == 0
  {
    if attempts != [] { NoneSucceeded(attempts[..|attempts| - 1]); }
  }

  lemma BeginKeepsShape(attempts: seq<Attempt>, now: int)
    requires Shape(attempts) && Find(attempts, Succeeded, 0).None? && Find(attempts, Running, 0).None?
    ensures Shape(attempts + [Attempt(MaxNumber(attempts) + 1, Running, now, false)])
  {
    MaxIsLength(attempts);
    var more := attempts + [Attempt(MaxNumber(attempts) + 1, Running, now, false)];
    forall i | 0 <= i < |more| - 1
      ensures more[i].status in {Failed, Quarantined}
    {
      assert more[i] == attempts[i];
      assert attempts[i].status != Succeeded && attempts[i].status != Running;
    }
  }

  lemma FinishKeepsShape(attempts: seq<Attempt>, i: nat, status: Status, accepted: bool)
    requires Shape(attempts) && i < |attempts| && attempts[i].status.Running? && !status.Running?
    ensures i == |attempts| - 1
    ensures Shape(attempts[i := attempts[i].(status := status, accepted := accepted)])
  {
    LastRuns(attempts, i);
  }

  lemma LastRuns(attempts: seq<Attempt>, i: nat)
    requires Shape(attempts) && i < |attempts|
    ensures attempts[i].status.Running? ==> i == |attempts| - 1
  {
  }

  /** Registration accepts exactly the ledgers that have chunks, every one of which ends in one accepted success. */
  lemma RegisterIff(l: Ledger, evidenceHolds: bool)
    requires WellKept(l) && !l.registered
    ensures RegisterDataset(l, evidenceHolds).Done? <==>
        l.chunks != map[] && evidenceHolds && forall key :: key in l.chunks ==> Finished(l.chunks[key])
  {
    hide MaxNumber, CountSucceeded, SuccessesAccepted, Shape, Finished;
    forall key | key in l.chunks
      ensures Finished(l.chunks[key]) <==>
                && Find(l.chunks[key], Running, 0).None? && CountSucceeded(l.chunks[key]) == 1
                && SuccessesAccepted(l.chunks[key])
    {
      ChunkReady(l.chunks[key]);
    }
  }

  lemma ChunkReady(attempts: seq<Attempt>)
    requires Shape(attempts)
    ensures Finished(attempts) <==>
              && Find(attempts, Running, 0).None? && CountSucceeded(attempts) == 1
              && SuccessesAccepted(attempts)
  {
    CountsLast(attempts);
    if attempts != [] {
      var n := |attempts| - 1;
      assert forall k :: 0 <= k < n ==> attempts[k].status in {Failed, Quarantined};
      if Find(attempts, Running, 0).Some? {
        assert attempts[Find(attempts, Running, 0).value].status.Running?;
      }
    }
  }

  /** Every command keeps every chunk's ledger in shape. */
  lemma StepKeeps(l: Ledger, c: Command)
    requires WellKept(l)
    ensures WellKept(Step(l, c))
  {
    hide Finished, Shape, CountSucceeded, MaxNumber;
    match c {
      case Begin(key, now) =>
        if Try(l, c).Done? { BeginKeepsShape(l.chunks[key], now); }
      case Finish(key, number, status, accepted) => FinishKeeps(l, key, number, status, accepted);
      case ResolveStale(key, number, threshold, reasonGiven, now) => FinishKeeps(l, key, number, Failed, false);
      case Register(evidenceHolds) =>
        if !l.registered { RegisterIff(l, evidenceHolds); }
    }
  }

  lemma FinishKeeps(l: Ledger, key: Key, number: nat, status: Status, accepted: bool)
    requires WellKept(l)
    ensures FinishAttempt(l, key, number, status, accepted).Done? ==>
              WellKept(FinishAttempt(l, key, number, status, accepted).ledger) && !l.registered
  {
    if FinishAttempt(l, key, number, status, accepted).Done? {
      var attempts := l.chunks[key];
      var i := Numbered(attempts, number, 0);
      FinishKeepsShape(attempts, i.value, status, accepted && status.Succeeded?);
    }
  }

  /** Over every run: each chunk's attempts are numbered 1, 2, 3, ... and all but the last have failed or been
      quarantined. */
  lemma {:induction false} LedgerShape(l: Ledger, commands: seq<Command>)
    requires WellKept(l)
    ensures WellKept(RunAll(l, commands))
  {
    if commands != [] {
      LedgerShape(l, commands[..|commands| - 1]);
      StepKeeps(RunAll(l, commands[..|commands| - 1]), commands[|commands| - 1]);
    }
  }

  lemma NothingRunning(attempts: seq<Attempt>, i: nat)
    requires Shape(attempts) && Finished(attempts) && i < |attempts|
    ensures !attempts[i].status.Running?
  {
  }

  lemma SealedStep(l: Ledger, c: Command)
    requires WellKept(l) && l.registered
    ensures Step(l, c) == l
  {
    hide Shape, Finished;
    match c {
      case Finish(key, number, status, accepted) =>
        if key in l.chunks {
          var i := Numbered(l.chunks[key], number, 0);
          if i.Some? { NothingRunning(l.chunks[key], i.value); }
        }
      case _ =>
    }
  }

  /** Registration seals the ledger: no later run of commands changes anything. */
  lemma {:induction false} RegisteredIsSealed(l: Ledger, commands: seq<Command>)
    requires WellKept(l) && l.registered
    ensures RunAll(l, commands) == l
  {
    if commands != [] {
      RegisteredIsSealed(l, commands[..|commands| - 1]);
      SealedStep(l, commands[|commands| - 1]);
    }
  }

  /** A chunk that has succeeded is never attempted again. */
  lemma SuccessIsFinal(l: Ledger, c: Command, key: Key)
    requires WellKept(l) && key in l.chunks && l.chunks[key] != []
        && l.chunks[key][|l.chunks[key]| - 1].status.Succeeded?
    ensures key in Step(l, c).chunks && Step(l, c).chunks[key] == l.chunks[key]
  {
    var attempts := l.chunks[key];
    match c {
      case Begin(other, now) =>
        if other == key { FoundSuccess(attempts); }
      case Finish(other, number, status, accepted) =>
        if other == key { NoRunning(attempts, Numbered(attempts, number, 0)); }
      case ResolveStale(other, number, threshold, reasonGiven, now) =>
        if other == key { NoRunning(attempts, Numbered(attempts, number, 0)); }
      case Register(evidenceHolds) =>
    }
  }

  lemma FoundSuccess(attempts: seq<Attempt>)
    requires attempts != [] && attempts[|attempts| - 1].status.Succeeded?
    ensures Find(attempts, Succeeded, 0).Some?
  {
  }

  lemma NoRunning(attempts: seq<Attempt>, i: Option<nat>)
    requires Shape(attempts) && attempts != [] && attempts[|attempts| - 1].status.Succeeded?
    ensures i.Some? && i.value < |attempts| ==> !attempts[i.value].status.Running?
  {
  }

  // ---------- the ledger in place ----------

  class HistoricalLedger {
    var chunks: map<Key, seq<Attempt>>
    var registered: bool

    function Contents(): Ledger
      reads this
    {
      Ledger(chunks, registered)
    }

    /** `begin_historical_attempt`: the attempt and whether it was created, or a refusal. */
    method BeginHistoricalAttempt(key: Key, now: int) returns (r: Option<(Attempt, bool)>)
      modifies `chunks
      ensures Contents() == Step(old(Contents()), Begin(key, now))
      ensures match BeginAttempt(old(Contents()), key, now) {
                case Refused(_) => r.None?
                case Kept(number) => r.Some? && r.value.0.number == number && r.value.0.status.Succeeded? && !r.value.1
                case Done(_) => r.Some? && r.value.1 && r.value.0.status.Running?
              }
    {
      if key !in chunks || registered {
        return None;
      }
      var attempts := chunks[key];
      var successful := Find(attempts, Succeeded, 0);
      if successful.Some? {
        return Some((attempts[successful.value], false));
      }
      var running := Find(attempts, Running, 0);
      if running.Some? {
        return None;
      }
      var highest := 0;
      for k := 0 to |attempts|
        invariant highest == MaxNumber(attempts[..k])
      {
        assert attempts[..k + 1][..k] == attempts[..k];
        if attempts[k].number > highest {
          highest := attempts[k].number;
        }
      }
      assert attempts[..|attempts|] == attempts;
      var attempt := Attempt(highest + 1, Running, now, false);
      chunks := chunks[key := attempts + [attempt]];
      r := Some((attempt, true));
    }

    /** The end of a running attempt; false when there is none to end. */
    method FinishHistoricalAttempt(key: Key, number: nat, status: Status, accepted: bool) returns (ok: bool)
      modifies `chunks
      ensures Contents() == Step(old(Contents()), Finish(key, number, status, accepted))
      ensures ok <==> FinishAttempt(old(Contents()), key, number, status, accepted).Done?
    {
      if key !in chunks || status.Running? {
        return false;
      }
      var i := Numbered(chunks[key], number, 0);
      if i.None? || !chunks[key][i.value].status.Running? {
        return false;
      }
      var attempt := chunks[key][i.value].(status := status, accepted := accepted && status.Succeeded?);
      chunks := chunks[key := chunks[key][i.value := attempt]];
      ok := true;
    }

    /** `resolve_stale_historical_attempt` */
    method ResolveStaleHistoricalAttempt(key: Key, number: nat, threshold: int, reasonGiven: bool, now: int)
        returns (ok: bool)
      modifies `chunks
      ensures Contents() == Step(old(Contents()), ResolveStale(key, number, threshold, reasonGiven, now))
      ensures ok <==> ResolveStaleAttempt(old(Contents()), key, number, threshold, reasonGiven, now).Done?
    {
      if threshold <= 0 || !reasonGiven || key !in chunks || registered {
        return false;
      }
      var i := Numbered(chunks[key], number, 0);
      if i.None? || !chunks[key][i.value].status.Running? || chunks[key][i.value].startedAt > now - threshold {
        return false;
      }
      ok := FinishHistoricalAttempt(key, number, Failed, false);
    }

    /** The loop of `register_historical_dataset` over its chunks. */
    method RegisterHistoricalDataset(evidenceHolds: bool) returns (ok: bool)
      modifies `registered
      ensures Contents() == Step(old(Contents()), Register(evidenceHolds))
      ensures ok <==> RegisterDataset(old(Contents()), evidenceHolds).Done?
    {
      hide CountSucceeded, SuccessesAccepted;
      if registered {
        return true;
      }
      if chunks == map[] {
        return false;
      }
      var rest := chunks.Keys;
      ok := evidenceHolds;
      while rest != {}
        invariant rest <= chunks.Keys
        invariant ok <==> evidenceHolds && forall key :: key in chunks && key !in rest ==>
          Find(chunks[key], Running, 0).None? && CountSucceeded(chunks[key]) == 1 && SuccessesAccepted(chunks[key])
        decreases rest
      {
        var key :| key in rest;
        rest := rest - {key};
        var attempts := chunks[key];
        ok := ok && Find(attempts, Running, 0).None? && CountSucceeded(attempts) == 1 && SuccessesAccepted(attempts);
      }
      if ok {
        registered := true;
      }
    }
  }

  // ---------- what a rejected response tells ----------

  function ToSet(s: seq<int>): set<int> {
    set x | x in s
  }

  function Insert(s: seq<int>, x: int): (r: seq<int>)
  {
    if s == [] || s[|s| - 1] <= x then s + [x] else Insert(s[..|s| - 1], x) + [s[|s| - 1]]
  }

  function Sort(s: seq<int>): seq<int> {
    if s == [] then [] else Insert(Sort(s[..|s| - 1]), s[|s| - 1])
  }

  predicate Rising(s: seq<int>) {
    forall i, j :: 0 <= i < j < |s| ==> s[i] <= s[j]
  }

  datatype Mismatch = Mismatch(missing: nat, extra: nat, duplicates: int, misordered: bool)

  /** The counts of `_timestamp_mismatch_evidence`. */
  function MismatchEvidence(expected: seq<int>, actual: seq<int>): Mismatch {
    Mismatch(
      |ToSet(expected) - ToSet(actual)|,
      |ToSet(actual) - ToSet(expected)|,
      |actual| - |ToSet(actual)|,
      actual != Sort(actual))
  }

  lemma {:induction false} InsertRising(s: seq<int>, x: int)
    requires Rising(s)
    ensures Rising(Insert(s, x))
    ensures forall y :: y in Insert(s, x) <==> y in s || y == x
  {
    if s != [] && s[|s| - 1] > x {
      var init, last := s[..|s| - 1], s[|s| - 1];
      InsertRising(init, x);
      var r := Insert(init, x);
      assert s == init + [last];
      forall i | 0 <= i < |r|
        ensures r[i] <= last
      {
        assert r[i] in r;
        Below(init, last, r[i], x);
      }
    }
  }

  lemma Below(init: seq<int>, last: int, y: int, x: int)
    requires (forall k :: 0 <= k < |init| ==> init[k] <= last) && x < last && (y in init || y == x)
    ensures y <= last
  {
  }

  lemma {:induction false} SortRising(s: seq<int>)
    ensures Rising(Sort(s))
  {
    if s != [] {
      SortRising(s[..|s| - 1]);
      InsertRising(Sort(s[..|s| - 1]), s[|s| - 1]);
    }
  }

  lemma {:induction false} SortFixes(s: seq<int>)
    requires Rising(s)
    ensures Sort(s) == s
  {
    if s != [] {
      SortFixes(s[..|s| - 1]);
    }
  }

  /** A list is longer than its set exactly when it repeats an element. */
  lemma {:induction false} DuplicatesIff(s: seq<int>)
    ensures |ToSet(s)| <= |s|
    ensures |ToSet(s)| == |s| <==> forall i, j :: 0 <= i < j < |s| ==> s[i] != s[j]
  {
    if s != [] {
      var init, last := s[..|s| - 1], s[|s| - 1];
      DuplicatesIff(init);
      assert s == init + [last];
      assert ToSet(s) == ToSet(init) + {last};
      if last in init {
        var k :| 0 <= k < |init| && init[k] == last;
        assert s[k] == s[|s| - 1];
        assert ToSet(s) == ToSet(init);
      } else {
        forall i | 0 <= i < |init|
          ensures s[i] != last
        {
          assert init[i] in init;
        }
      }
    }
  }

  lemma EmptyDifference(a: set<int>, b: set<int>)
    ensures |a - b| == 0 <==> a <= b
  {
    if a <= b {
      assert a - b == {};
    }
    if a - b == {} {
      forall x | x in a
        ensures x in b
      {
        assert x !in b ==> x in a - b;
      }
    }
  }

  /** For an increasing inventory the evidence is never silent: a response is the inventory exactly when nothing is
      missing, extra, repeated or out of order. */
  lemma EvidenceIff(expected: seq<int>, actual: seq<int>)
    requires Coverage.Increasing(expected)
    ensures actual == expected <==> MismatchEvidence(expected, actual) == Mismatch(0, 0, 0, false)
  {
    EmptyDifference(ToSet(expected), ToSet(actual));
    EmptyDifference(ToSet(actual), ToSet(expected));
    DuplicatesIff(actual);
    if actual == expected {
      SortFixes(actual);
    }
    if MismatchEvidence(expected, actual) == Mismatch(0, 0, 0, false) {
      SortRising(actual);
      assert Coverage.Increasing(actual);
      forall h
        ensures h in expected <==> h in actual
      {
        assert h in ToSet(expected) <==> h in ToSet(actual);
      }
      Coverage.SameElements(expected, actual);
    }
  }
}
