/** Projected risk of a set of recommendations, in whole CAD cents, overall and per currency leg. */
module Risk {
  import opened Rows
  import opened Lifecycle
  import opened Accounts

  type Ledger = map<nat, Account>

  function Weight(accounts: Ledger, leg: Option<Leg>, id: nat): int {
    if id in accounts then Share(accounts[id], leg) else 0
  }

  ghost function Usage(accounts: Ledger, leg: Option<Leg>, ids: set<nat>): int {
    if ids == {} then 0
    else
      var id :| id in ids;
      Weight(accounts, leg, id) + Usage(accounts, leg, ids - {id})
  }

  ghost predicate Fits(accounts: Ledger, ids: set<nat>) {
    && Usage(accounts, None, ids) <= AGGREGATE_CAP
    && forall leg: Leg :: Usage(accounts, Some(leg), ids) <= LEG_CAP
  }

  ghost predicate Positive(accounts: Ledger) {
    forall id :: id in accounts && accounts[id].size.Some? ==> 0 < accounts[id].size.value
  }

  lemma {:induction false} UsageRemove(accounts: Ledger, leg: Option<Leg>, ids: set<nat>, x: nat)
    requires x in ids
    ensures Usage(accounts, leg, ids) == Weight(accounts, leg, x) + Usage(accounts, leg, ids - {x})
    decreases ids
  {
    var y :| y in ids && Usage(accounts, leg, ids)
                         == Weight(accounts, leg, y) + Usage(accounts, leg, ids - {y});
    if x != y {
      UsageRemove(accounts, leg, ids - {y}, x);
      UsageRemove(accounts, leg, ids - {x}, y);
      assert ids - {y} - {x} == ids - {x} - {y};
    }
  }

  lemma {:induction false} UsageMonotone(accounts: Ledger, leg: Option<Leg>, a: set<nat>, b: set<nat>)
    requires a <= b && Positive(accounts)
    ensures 0 <= Usage(accounts, leg, a) <= Usage(accounts, leg, b)
    decreases b
  {
    if b != {} {
      var x :| x in b;
      UsageMonotone(accounts, leg, a - {x}, b - {x});
      UsageRemove(accounts, leg, b, x);
      if x in a {
        UsageRemove(accounts, leg, a, x);
      } else {
        assert a - {x} == a;
      }
    }
  }

  /** Only the rows of the members matter: other recommendations and sizes may come and go. */
  lemma {:induction false} UsageDepends(accounts: Ledger, accounts': Ledger, leg: Option<Leg>, ids: set<nat>)
    requires forall id :: id in ids ==> Weight(accounts, leg, id) == Weight(accounts', leg, id)
    ensures Usage(accounts, leg, ids) == Usage(accounts', leg, ids)
    decreases ids
  {
    if ids != {} {
      var x :| x in ids;
      UsageDepends(accounts, accounts', leg, ids - {x});
      UsageRemove(accounts, leg, ids, x);
      UsageRemove(accounts', leg, ids, x);
    }
  }

  /** Dropping recommendations never breaks a cap. */
  lemma SubsetFits(accounts: Ledger, a: set<nat>, b: set<nat>)
    requires a <= b && Positive(accounts) && Fits(accounts, b)
    ensures Fits(accounts, a)
  {
    UsageMonotone(accounts, None, a, b);
    forall leg: Leg
      ensures Usage(accounts, Some(leg), a) <= LEG_CAP
    {
      UsageMonotone(accounts, Some(leg), a, b);
    }
  }

  lemma FitsDepends(accounts: Ledger, accounts': Ledger, ids: set<nat>)
    requires forall id :: id in ids ==> id in accounts && id in accounts'
    requires forall id :: id in ids ==> accounts[id].rec == accounts'[id].rec && accounts[id].size == accounts'[id].size
    requires Fits(accounts, ids)
    ensures Fits(accounts', ids)
  {
    UsageDepends(accounts, accounts', None, ids);
    forall leg: Leg
      ensures Usage(accounts', Some(leg), ids) <= LEG_CAP
    {
      UsageDepends(accounts, accounts', Some(leg), ids);
    }
  }

  /** Sum of the leg usages over a finite set of legs. */
  ghost function LegTotal(accounts: Ledger, legs: set<Leg>, ids: set<nat>): int {
    if legs == {} then 0
    else
      var leg :| leg in legs;
      Usage(accounts, Some(leg), ids) + LegTotal(accounts, legs - {leg}, ids)
  }

  lemma {:induction false} LegTotalPick(accounts: Ledger, legs: set<Leg>, ids: set<nat>, leg: Leg)
    requires leg in legs
    ensures LegTotal(accounts, legs, ids)
         == Usage(accounts, Some(leg), ids) + LegTotal(accounts, legs - {leg}, ids)
    decreases legs
  {
    var k :| k in legs && LegTotal(accounts, legs, ids)
               == Usage(accounts, Some(k), ids) + LegTotal(accounts, legs - {k}, ids);
    if k != leg {
      LegTotalPick(accounts, legs - {k}, ids, leg);
      LegTotalPick(accounts, legs - {leg}, ids, k);
      assert legs - {k} - {leg} == legs - {leg} - {k};
    }
  }

  /** Legs a recommendation does not touch are indifferent to it. */
  lemma {:induction false} LegTotalUntouched(accounts: Ledger, legs: set<Leg>, ids: set<nat>, id: nat)
    requires id in ids && id in accounts
    requires forall leg :: leg in legs ==> leg !in Legs(accounts[id].rec)
    ensures LegTotal(accounts, legs, ids) == LegTotal(accounts, legs, ids - {id})
    decreases legs
  {
    if legs != {} {
      var leg :| leg in legs;
      LegTotalUntouched(accounts, legs - {leg}, ids, id);
      LegTotalPick(accounts, legs, ids, leg);
      LegTotalPick(accounts, legs, ids - {id}, leg);
      UsageRemove(accounts, Some(leg), ids, id);
    }
  }

  lemma LegTotalRemove(accounts: Ledger, legs: set<Leg>, ids: set<nat>, id: nat)
    requires id in ids && id in accounts && accounts[id].size.Some? && accounts[id].rec.action != Abstain
    requires forall leg :: leg in Legs(accounts[id].rec) ==> leg in legs
    ensures LegTotal(accounts, legs, ids) == 2 * accounts[id].size.value + LegTotal(accounts, legs, ids - {id})
  {
    var rest := ids - {id};
    var a, b := Legs(accounts[id].rec)[0], Legs(accounts[id].rec)[1];
    LegTotalPick(accounts, legs, ids, a);
    LegTotalPick(accounts, legs - {a}, ids, b);
    LegTotalPick(accounts, legs, rest, a);
    LegTotalPick(accounts, legs - {a}, rest, b);
    LegTotalUntouched(accounts, legs - {a} - {b}, ids, id);
    UsageRemove(accounts, Some(a), ids, id);
    UsageRemove(accounts, Some(b), ids, id);
  }

  lemma {:induction false} LegTotalEmpty(accounts: Ledger, legs: set<Leg>)
    ensures LegTotal(accounts, legs, {}) == 0
    decreases legs
  {
    if legs != {} {
      var leg :| leg in legs;
      LegTotalPick(accounts, legs, {}, leg);
      LegTotalEmpty(accounts, legs - {leg});
    }
  }

  /** Every setup is long one currency and short another, so over all legs the directional sums
      add up to exactly twice the aggregate. */
  lemma {:induction false} DirectionalTwiceTotal(accounts: Ledger, legs: set<Leg>, ids: set<nat>)
    requires forall id :: id in ids ==> id in accounts && accounts[id].size.Some? && accounts[id].rec.action != Abstain
    requires forall id, leg :: id in ids && leg in Legs(accounts[id].rec) ==> leg in legs
    ensures LegTotal(accounts, legs, ids) == 2 * Usage(accounts, None, ids)
    decreases ids
  {
    if ids == {} {
      LegTotalEmpty(accounts, legs);
    } else {
      var id :| id in ids;
      DirectionalTwiceTotal(accounts, legs, ids - {id});
      LegTotalRemove(accounts, legs, ids, id);
      UsageRemove(accounts, None, ids, id);
    }
  }
}
