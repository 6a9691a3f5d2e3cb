/** The rows the portfolio keeps about one recommendation: its size, lifecycle chain, admission events
    and coverage facts. */
module Accounts {
  import opened Rows
  import opened Lifecycle

  const AGGREGATE_CAP: int := 50000  // CAD cents
  const LEG_CAP: int := 25000
  const SETUP_CAP: int := 12500

  datatype AdmissionState = Admitted | Revoked

  datatype Account = Account(
    rec: Recommendation,
    size: Option<int>,
    chain: Chain,
    admissions: seq<Row<AdmissionState>>,
    facts: seq<Row<State>>)

  function StateNow(a: Account, now: int): Option<State> {
    ProjectedState(a.chain, now)
  }

  function AdmissionNow(a: Account, now: int): Option<AdmissionState> {
    var row := LatestAt(a.admissions, now);
    if row.Some? then Some(row.value.value) else None
  }

  /** `current_risk_projection` of a recommendation whose latest admission is ADMITTED. */
  predicate AtRisk(a: Account, now: int) {
    && a.rec.action != Abstain
    && AdmissionNow(a, now) == Some(Admitted)
    && StateNow(a, now) in {Some(AdmittedAwaitingEntry), Some(Entered)}
  }

  /** Appends one lifecycle event, stamped now. */
  function Marked(a: Account, state: State, kind: SourceKind, key: nat, now: int): Account {
    a.(chain := a.chain + [Row(Event(state, Source(kind, key, a.rec.id)), now)])
  }

  function Admit(a: Account, now: int): Account {
    a.(admissions := a.admissions + [Row(Admitted, now)])
  }

  type Leg = (string, int)

  function Legs(rec: Recommendation): seq<Leg> {
    match rec.action
    case Buy => [(rec.base, 1), (rec.quote, -1)]
    case Sell => [(rec.base, -1), (rec.quote, 1)]
    case Abstain => []
  }

  /** What an account contributes to `leg`; `None` stands for the aggregate. */
  function Share(a: Account, leg: Option<Leg>): int {
    if a.size.Some? && (leg.Some? ==> leg.value in Legs(a.rec)) then a.size.value else 0
  }
}
