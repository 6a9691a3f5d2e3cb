/** Which chunks of the governed successor dataset may be tried next. */
module Readiness {
  import opened Rows
  import opened Acquisition

  const SUCCESSOR_CHUNK_COUNT: nat := 132

  /** A read-only snapshot of one attempt; `canonicalKey` says its idempotency key is the expected one. */
  datatype State = State(number: nat, canonicalKey: bool, status: Status, accepted: bool)

  datatype Block =
    | UnexpectedState | CanaryAltered | CanaryAbsent | AttemptCountNotOne | NotCanonical | StillRunning | AttemptFailed
    | NotAccepted | DatasetRegistered

  datatype Verdict = Verdict(ready: seq<Key>, complete: bool, blocked: Option<Block>)

  type States = map<Key, seq<State>>

  function StatesOf(states: States, key: Key): seq<State> {
    if key in states then states[key] else []
  }

  /** One accepted canonical success. */
  predicate Good(s: State) {
    s.number == 1 && s.canonicalKey && s.status.Succeeded? && s.accepted
  }

  predicate Clean(states: States, key: Key) {
    |StatesOf(states, key)| == 1 && Good(StatesOf(states, key)[0])
  }

  predicate Untried(states: States, key: Key) {
    StatesOf(states, key) == []
  }

  /** What stops the walk at one key. */
  function BlockAt(states: States, canary: Key, key: Key): Option<Block> {
    var found := StatesOf(states, key);
    if found == [] then (if key == canary then Some(CanaryAbsent) else None)
    else if |found| != 1 then Some(AttemptCountNotOne)
    else if found[0].number != 1 || !found[0].canonicalKey then Some(NotCanonical)
    else if found[0].status.Running? then Some(StillRunning)
    else if !found[0].status.Succeeded? then Some(AttemptFailed)
    else if !found[0].accepted then Some(NotAccepted)
    else None
  }

  function FirstBlock(states: States, canary: Key, order: seq<Key>): Option<Block> {
    if order == [] then None
    else
      var b := FirstBlock(states, canary, order[..|order| - 1]);
      if b.Some? then b else BlockAt(states, canary, order[|order| - 1])
  }

  function Pending(states: States, order: seq<Key>): seq<Key> {
    if order == [] then []
    else
      var rest := Pending(states, order[..|order| - 1]);
      var key := order[|order| - 1];
      if Untried(states, key) then rest + [key] else rest
  }

  predicate Expected(states: States, order: seq<Key>) {
    forall key :: key in states ==> key in order
  }

  function Evaluate(states: States, canary: Key, chunks: seq<Key>, canaryValid: bool, registered: bool): Verdict {
    var order := [canary] + chunks;
    if !Expected(states, order) then Verdict([], false, Some(UnexpectedState))
    else if !canaryValid then Verdict([], false, Some(CanaryAltered))
    else
      var block := FirstBlock(states, canary, order);
      if block.Some? then Verdict([], false, block)
      else
        var pending := Pending(states, order);
        var complete := |order| - |pending| == SUCCESSOR_CHUNK_COUNT && pending == [];
        var offered := if registered || complete then [] else pending;
        Verdict(offered, complete, if registered then Some(DatasetRegistered) else None)
  }

  /** `evaluate_gate8g_readiness`, with its counter and its list of pending keys. */
  method EvaluateGate8gReadiness(states: States, canary: Key, chunks: seq<Key>, canaryValid: bool, registered: bool)
    returns (v: Verdict)
    ensures v == Evaluate(states, canary, chunks, canaryValid, registered)
  {
    hide BlockAt, FirstBlock, Pending, StatesOf;
    var order := [canary] + chunks;
    NothingWalked(states, canary, order);
    if !(forall key :: key in states ==> key in order) {
      return Verdict([], false, Some(UnexpectedState));
    }
    if !canaryValid {
      return Verdict([], false, Some(CanaryAltered));
    }
    var pending: seq<Key>, succeeded := [], 0;
    for k := 0 to |order|
      invariant FirstBlock(states, canary, order[..k]).None?
      invariant pending == Pending(states, order[..k]) && succeeded == k - |pending|
    {
      WalkStep(states, canary, order, k);
      var found := StatesOf(states, order[k]);
      if found == [] {
        if order[k] == canary {
          return Verdict([], false, Some(CanaryAbsent));
        }
        pending := pending + [order[k]];
      } else {
        var block := BlockAt(states, canary, order[k]);
        if block.Some? {
          return Verdict([], false, block);
        }
        succeeded := succeeded + 1;
      }
    }
    assert order[..|order|] == order;
    var complete := succeeded == SUCCESSOR_CHUNK_COUNT && pending == [];
    v := Verdict(
      if registered || complete then [] else pending, complete, if registered then Some(DatasetRegistered) else None);
  }

  lemma NothingWalked(states: States, canary: Key, order: seq<Key>)
    ensures FirstBlock(states, canary, order[..0]).None? && Pending(states, order[..0]) == []
  {
  }

  /** One key of the walk: the first block found stands, and an untried key is pending. */
  lemma WalkStep(states: States, canary: Key, order: seq<Key>, k: nat)
    requires k < |order| && FirstBlock(states, canary, order[..k]).None?
    ensures var found, block := StatesOf(states, order[k]), BlockAt(states, canary, order[k]);
            && FirstBlock(states, canary, order[..k + 1]) == block
            && (block.Some? ==> FirstBlock(states, canary, order) == block)
            && (found == [] ==> block == if order[k] == canary then Some(CanaryAbsent) else None)
            && Pending(states, order[..k + 1]) == Pending(states, order[..k]) + (if found == [] then [order[k]] else [])
  {
    assert order[..k + 1][..k] == order[..k];
    BlockStays(states, canary, order, k + 1);
  }

  lemma {:induction false} BlockStays(states: States, canary: Key, order: seq<Key>, k: nat)
    requires k <= |order|
    ensures FirstBlock(states, canary, order[..k]).Some? ==>
        FirstBlock(states, canary, order) == FirstBlock(states, canary, order[..k])
    decreases |order|
  {
    if k < |order| {
      BlockStays(states, canary, order[..|order| - 1], k);
      assert order[..|order| - 1][..k] == order[..k];
    } else {
      assert order[..k] == order;
    }
  }

  // ---------- what the verdict means ----------

  /** Nothing about the key stands in the way: never tried, or tried once and accepted. */
  predicate Open(states: States, canary: Key, key: Key) {
    (Untried(states, key) && key != canary) || Clean(states, key)
  }

  lemma {:induction false} UnblockedIff(states: States, canary: Key, order: seq<Key>)
    ensures FirstBlock(states, canary, order).None? <==> forall k :: 0 <= k < |order| ==> Open(states, canary, order[k])
  {
    if order != [] {
      UnblockedIff(states, canary, order[..|order| - 1]);
    }
  }

  lemma {:induction false} PendingAre(states: States, order: seq<Key>)
    ensures |Pending(states, order)| <= |order|
    ensures forall key :: key in Pending(states, order) <==> key in order && Untried(states, key)
    ensures Pending(states, order) == [] <==> forall k :: 0 <= k < |order| ==> !Untried(states, order[k])
  {
    if order != [] {
      var n := |order| - 1;
      PendingAre(states, order[..n]);
      assert order == order[..n] + [order[n]];
    }
  }

  /** Complete means: every one of the 132 keys has exactly one attempt, an accepted canonical success. */
  lemma CompleteIff(states: States, canary: Key, chunks: seq<Key>, canaryValid: bool, registered: bool)
    ensures var order := [canary] + chunks;
            Evaluate(states, canary, chunks, canaryValid, registered).complete <==>
              && canaryValid && Expected(states, order) && |order| == SUCCESSOR_CHUNK_COUNT
              && forall k :: 0 <= k < |order| ==> Clean(states, order[k])
  {
    var order := [canary] + chunks;
    UnblockedIff(states, canary, order);
    PendingAre(states, order);
    forall k | 0 <= k < |order|
      ensures Clean(states, order[k]) <==> Open(states, canary, order[k]) && !Untried(states, order[k])
    {
    }
  }

  /** Keys are offered only while every other key is untried or cleanly done; any failure, duplicate, running or
      unaccepted attempt withdraws them all. */
  lemma ReadyIff(states: States, canary: Key, chunks: seq<Key>, canaryValid: bool, registered: bool, key: Key)
    ensures var order := [canary] + chunks;
            var v := Evaluate(states, canary, chunks, canaryValid, registered);
            key in v.ready <==>
              && canaryValid && !registered && Expected(states, order)
              && (forall k :: 0 <= k < |order| ==> Open(states, canary, order[k]))
              && key in order && Untried(states, key)
  {
    UnblockedIff(states, canary, [canary] + chunks);
    PendingAre(states, [canary] + chunks);
  }

  // ---------- a run that takes what is offered ----------

  /** One try: a ready key gets its attempt, with whatever result. */
  datatype Attempted = Attempted(key: Key, result: State)

  function After(states: States, tries: seq<Attempted>): States {
    if tries == [] then states
    else
      var before := After(states, tries[..|tries| - 1]);
      var t := tries[|tries| - 1];
      before[t.key := StatesOf(before, t.key) + [t.result]]
  }

  /** Every try takes a key that is ready at that moment. */
  ghost predicate Obedient(states: States, canary: Key, chunks: seq<Key>, canaryValid: bool, tries: seq<Attempted>) {
    forall k :: 0 <= k < |tries| ==>
      tries[k].key in Evaluate(After(states, tries[..k]), canary, chunks, canaryValid, false).ready
  }

  lemma {:induction false} StatesOnlyGrow(states: States, tries: seq<Attempted>, k: nat, key: Key)
    requires k <= |tries|
    ensures StatesOf(After(states, tries[..k]), key) <= StatesOf(After(states, tries), key)
    decreases |tries|
  {
    if k < |tries| {
      var n := |tries| - 1;
      StatesOnlyGrow(states, tries[..n], k, key);
      assert tries[..n][..k] == tries[..k];
    } else {
      assert tries[..k] == tries;
    }
  }

  lemma TriedStays(states: States, tries: seq<Attempted>, i: nat)
    requires i < |tries|
    ensures StatesOf(After(states, tries[..i]), tries[i].key) + [tries[i].result] <=
              StatesOf(After(states, tries), tries[i].key)
  {
    assert tries[..i + 1][..i] == tries[..i];
    StatesOnlyGrow(states, tries, i + 1, tries[i].key);
  }

  /** An obedient run tries each key at most once, and only its last try can be anything but an accepted success:
      behind a failure nothing is ever offered again. */
  lemma ObedientRunsStop(states: States, canary: Key, chunks: seq<Key>, canaryValid: bool, tries: seq<Attempted>)
    requires Obedient(states, canary, chunks, canaryValid, tries)
    ensures forall i, j :: 0 <= i < j < |tries| ==> tries[i].key != tries[j].key && Good(tries[i].result)
  {
    forall i, j | 0 <= i < j < |tries|
      ensures tries[i].key != tries[j].key && Good(tries[i].result)
    {
      var now := After(states, tries[..j]);
      assert tries[..j][..i] == tries[..i];
      TriedStays(states, tries[..j], i);
      ReadyIff(now, canary, chunks, canaryValid, false, tries[j].key);
      ReadyIff(After(states, tries[..i]), canary, chunks, canaryValid, false, tries[i].key);
      OpenInOrder(now, canary, [canary] + chunks, tries[i].key);
    }
  }

  lemma OpenInOrder(states: States, canary: Key, order: seq<Key>, key: Key)
    requires key in order && forall k :: 0 <= k < |order| ==> Open(states, canary, order[k])
    ensures Open(states, canary, key)
  {
  }

  /** Each accepted success takes exactly its key off the pending list. */
  lemma {:induction false} PendingShrinks(states: States, order: seq<Key>, key: Key, result: State)
    requires forall i, j :: 0 <= i < j < |order| ==> order[i] != order[j]
    requires Untried(states, key)
    ensures var more := states[key := [result]];
            && |Pending(more, order)| == |Pending(states, order)| - (if key in order then 1 else 0)
            && forall k :: k in Pending(more, order) <==> k in Pending(states, order) && k != key
  {
    if order != [] {
      var n := |order| - 1;
      PendingShrinks(states, order[..n], key, result);
      assert order == order[..n] + [order[n]];
      PendingAre(states, order);
      PendingAre(states[key := [result]], order);
    }
  }
}
