/** What one hourly bid/ask candle does to a paper setup. Prices are integers in millionths, the precision the
    tables store, so a pip is 100 units and quantizing a stored price changes nothing. */
module Fills {
  import opened Rows
  import Rounding

  datatype Condition = AtOrBelow | AtOrAbove

  /** The levels of a directional recommendation; `buy` is false for a sell. */
  datatype Setup = Setup(buy: bool, condition: Condition, entry: int, target: int, stop: int)

  datatype Candle = Candle(
    bidOpen: int, bidHigh: int, bidLow: int, bidClose: int,
    askOpen: int, askHigh: int, askLow: int, askClose: int)

  /** The table's check constraints. */
  predicate ValidCandle(c: Candle) {
    && c.bidLow <= c.bidOpen <= c.bidHigh && c.bidLow <= c.bidClose <= c.bidHigh
    && c.askLow <= c.askOpen <= c.askHigh && c.askLow <= c.askClose <= c.askHigh
    && c.bidOpen <= c.askOpen && c.bidHigh <= c.askHigh && c.bidLow <= c.askLow && c.bidClose <= c.askClose
  }

  /** The level ordering a directional recommendation is saved with. */
  predicate ValidSetup(s: Setup) {
    if s.buy then s.stop < s.entry < s.target else s.target < s.entry < s.stop
  }

  datatype Fill = Fill(atOpen: bool, price: int)

  /** `_entry_fill` */
  function EntryFill(s: Setup, c: Candle): Option<Fill> {
    var open := if s.buy then c.askOpen else c.bidOpen;
    var low := if s.buy then c.askLow else c.bidLow;
    var high := if s.buy then c.askHigh else c.bidHigh;
    if s.condition.AtOrBelow? then
      if low > s.entry then None
      else
        var atOpen := open <= s.entry;
        Some(Fill(atOpen, if s.buy then s.entry else if atOpen then Min(s.entry, open) else s.entry))
    else
      if high < s.entry then None
      else
        var atOpen := open >= s.entry;
        Some(Fill(atOpen, if s.buy then (if atOpen then Max(s.entry, open) else s.entry) else s.entry))
  }

  function Min(a: int, b: int): int {
    if b < a then b else a
  }

  function Max(a: int, b: int): int {
    if b > a then b else a
  }

  predicate TargetTouched(s: Setup, c: Candle) {
    if s.buy then c.bidHigh >= s.target else c.askLow <= s.target
  }

  predicate StopTouched(s: Setup, c: Candle) {
    if s.buy then c.bidLow <= s.stop else c.askHigh >= s.stop
  }

  /** `_stop_fill` */
  function StopFill(s: Setup, c: Candle): int {
    if s.buy then Min(s.stop, c.bidOpen) else Max(s.stop, c.askOpen)
  }

  /** Profit of a closed position before rounding, in millionths. */
  function SignedChange(s: Setup, fill: int, exit: int): int {
    if s.buy then exit - fill else fill - exit
  }

  function RiskOf(s: Setup, fill: int): nat {
    Rounding.Abs(fill - s.stop)
  }

  /** The R multiple in ten-thousandths, rounded half to even. */
  function RMultiple(s: Setup, fill: int, exit: int): int
    requires RiskOf(s, fill) != 0
  {
    Rounding.HalfEven(SignedChange(s, fill, exit) * 10000, RiskOf(s, fill))
  }

  /** `p` lies in the candle's range on the side the order executes on. */
  predicate TradedAt(s: Setup, c: Candle, p: int) {
    if s.buy then c.askLow <= p <= c.askHigh else c.bidLow <= p <= c.bidHigh
  }

  predicate Triggers(s: Setup, p: int) {
    if s.condition.AtOrBelow? then p <= s.entry else p >= s.entry
  }

  /** A candle fills the entry exactly when some price of its traded side satisfies the condition, and no fill is
      better for the trader than the declared level; so the position always carries at least the planned risk. */
  lemma FillNeverBetter(s: Setup, c: Candle)
    requires ValidSetup(s) && ValidCandle(c)
    ensures EntryFill(s, c).Some? <==> exists p :: TradedAt(s, c, p) && Triggers(s, p)
    ensures EntryFill(s, c).Some? ==>
              && (if s.buy then EntryFill(s, c).value.price >= s.entry else EntryFill(s, c).value.price <= s.entry)
              && RiskOf(s, EntryFill(s, c).value.price) >= Rounding.Abs(s.entry - s.stop) > 0
  {
    if EntryFill(s, c).Some? {
      var p := if s.condition.AtOrBelow? then (if s.buy then c.askLow else c.bidLow)
               else if s.buy then c.askHigh else c.bidHigh;
      assert TradedAt(s, c, p) && Triggers(s, p);
    }
  }

  /** A stopped position loses at least one R, also after the price gapped and after rounding. */
  lemma StoppedLosesOneR(s: Setup, entryCandle: Candle, stopCandle: Candle)
    requires ValidSetup(s) && ValidCandle(entryCandle) && EntryFill(s, entryCandle).Some?
    ensures var fill := EntryFill(s, entryCandle).value.price;
            RiskOf(s, fill) != 0 && RMultiple(s, fill, StopFill(s, stopCandle)) <= -10000
  {
    FillNeverBetter(s, entryCandle);
    var fill := EntryFill(s, entryCandle).value.price;
    var change, risk := SignedChange(s, fill, StopFill(s, stopCandle)), RiskOf(s, fill);
    assert change <= -risk;
    Rounding.HalfEvenBound(change * 10000, risk, -10000);
  }

  // ---------- the setups the engine offers ----------

  /** A limit entry: buying a fall or selling a rise. */
  predicate LimitEntry(s: Setup) {
    s.buy == s.condition.AtOrBelow?
  }

  /** Every fill of this setup is at the declared level, whatever the candle. */
  ghost predicate FillsAtLevel(s: Setup) {
    forall c :: ValidCandle(c) && EntryFill(s, c).Some? ==> EntryFill(s, c).value.price == s.entry
  }

  /** A candle on which the position opens and reaches its target always leaves a profit. */
  ghost predicate TargetAlwaysPays(s: Setup) {
    forall c :: ValidCandle(c) && EntryFill(s, c).Some? ==> SignedChange(s, EntryFill(s, c).value.price, s.target) > 0
  }

  function Flat(price: int): Candle {
    Candle(price, price, price, price, price, price, price, price)
  }

  /** Limit entries are exactly the setups with a known fill, and exactly those whose target is always a gain: a
      stop entry can gap through its own target and book the target as a loss. */
  lemma LimitEntryIff(s: Setup)
    requires ValidSetup(s)
    ensures FillsAtLevel(s) <==> LimitEntry(s)
    ensures TargetAlwaysPays(s) <==> LimitEntry(s)
  {
    if !LimitEntry(s) {
      var beyond := Flat(s.target + if s.buy then 1 else -1);
      assert ValidCandle(beyond);
      assert EntryFill(s, beyond) == Some(Fill(true, beyond.askOpen));
    }
  }

  /** A stop entry that gapped past its target opens at the open, hits the target on the same candle without
      touching the stop, and loses. */
  lemma TargetCanLose(s: Setup)
    requires ValidSetup(s) && !LimitEntry(s)
    ensures exists c :: ValidCandle(c) && TargetTouched(s, c) && !StopTouched(s, c)
              && EntryFill(s, c).Some? && EntryFill(s, c).value.atOpen
              && SignedChange(s, EntryFill(s, c).value.price, s.target) < 0
  {
    var beyond := Flat(s.target + if s.buy then 1 else -1);
    assert ValidCandle(beyond) && TargetTouched(s, beyond) && !StopTouched(s, beyond);
    assert EntryFill(s, beyond) == Some(Fill(true, beyond.askOpen));
  }

  /** `_deterministic_setup` for rounded levels; a missing or zero level falls back to the neutral band. */
  function DeterministicSetup(reference: int, band: int, support: Option<int>, resistance: Option<int>,
      buy: bool): Setup {
    var low := if support.Some? && support.value != 0 then support.value else reference - band;
    var high := if resistance.Some? && resistance.value != 0 then resistance.value else reference + band;
    var upper, lower := Max(high, reference + band), Min(low, reference - band);
    if buy then Setup(true, AtOrBelow, reference, upper, lower) else Setup(false, AtOrAbove, reference, lower, upper)
  }

  /** With a positive band every generated setup is ordered, fills at its level and pays at least the band when its
      target is hit, whatever the path. */
  lemma GeneratedSetup(reference: int, band: int, support: Option<int>, resistance: Option<int>, buy: bool, c: Candle)
    requires band > 0 && ValidCandle(c)
    ensures var s := DeterministicSetup(reference, band, support, resistance, buy);
            && ValidSetup(s)
            && (EntryFill(s, c).Some? ==>
                  var fill := EntryFill(s, c).value.price;
                  && SignedChange(s, fill, s.target) == Rounding.Abs(s.target - s.entry) >= band
                  && RiskOf(s, fill) >= band)
  {
    var s := DeterministicSetup(reference, band, support, resistance, buy);
    LimitEntryIff(s);
  }

  /** Without a positive band the generated levels are usable exactly when both technical levels lie strictly beyond
      the reference. */
  lemma GeneratedSetupIff(reference: int, band: int, support: Option<int>, resistance: Option<int>, buy: bool)
    requires band >= 0
    ensures ValidSetup(DeterministicSetup(reference, band, support, resistance, buy)) <==>
              || band > 0
              || (&& support.Some? && support.value != 0 && support.value < reference
                  && resistance.Some? && resistance.value != 0 && reference < resistance.value)
  {
  }
}
