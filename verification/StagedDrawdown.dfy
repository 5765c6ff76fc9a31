/** The staged-drawdown strategy: buy after a slow decline, add on further decline within a capital
    budget, and take profit either repeatedly or in tiers. */
module StagedDrawdown {
  import opened Base
  import opened Numeric
  import S = Sizing
  import opened Reducer

  datatype Sizing =
    | FixedNotional(amount: real)
    | InitialCapitalFraction(fraction: real)
    | CurrentPositionFraction(share: real)
    | FixedQuantity(quantity: int)
    | FullPosition

  datatype Intent = Intent(security: Id, side: Side, sizing: Sizing, priority: int, id: nat)

  datatype Parameters = Parameters(
    security: Id, lookback: int, declineThreshold: real, crashThreshold: real, minimumDownDays: int,
    addThreshold: real, buyFraction: real, maxFraction: real, takeProfit: real, sellFraction: real,
    tiered: bool, levels: seq<real>, fractions: seq<real>,
    rebound: bool, maDays: int, windowDays: int, addAfterSell: bool)

  predicate Unit(x: real) {
    0.0 < x <= 1.0
  }

  function Sum(xs: seq<real>): real {
    if xs == [] then 0.0 else Sum(xs[..|xs| - 1]) + xs[|xs| - 1]
  }

  /** The constraints parameter loading enforces. */
  predicate ValidParameters(v: Parameters) {
    && 2 <= v.lookback && 1 <= v.minimumDownDays < v.lookback
    && Unit(v.declineThreshold) && Unit(v.crashThreshold) && Unit(v.addThreshold)
    && Unit(v.buyFraction) && Unit(v.maxFraction) && Unit(v.takeProfit) && Unit(v.sellFraction)
    && v.buyFraction <= v.maxFraction
    && 0 < |v.levels| == |v.fractions|
    && (forall i | 0 <= i < |v.levels| :: v.levels[i] > 0.0)
    && (forall i | 0 < i < |v.levels| :: v.levels[i - 1] < v.levels[i])
    && (forall i | 0 <= i < |v.fractions| :: Unit(v.fractions[i]))
    && Sum(v.fractions) == 1.0
    && 2 <= v.maDays && 0 <= v.windowDays
  }

  function RequiredHistory(v: Parameters): int {
    if v.rebound then Max(Max(v.lookback + v.windowDays, v.maDays), 2) else v.lookback
  }

  /** The research slice one decision reads: adjusted closes, raw closes and the sell lot rule. */
  datatype History = History(days: seq<Date>, closes: seq<real>, raw: seq<real>, sellLot: int)

  predicate UsableHistory(v: Parameters, h: History) {
    && |h.days| == |h.closes| == |h.raw| == RequiredHistory(v)
    && (forall i | 0 <= i < |h.closes| :: h.closes[i] > 0.0)
    && (forall i | 0 <= i < |h.raw| :: h.raw[i] > 0.0)
  }

  function WorstReturn(closes: seq<real>): real
    requires |closes| >= 2 && forall i | 0 <= i < |closes| :: closes[i] > 0.0
  {
    var n := |closes|;
    var last := closes[n - 1] / closes[n - 2] - 1.0;
    if n == 2 then last else MinReal(WorstReturn(closes[..n - 1]), last)
  }

  function DownDays(closes: seq<real>): nat {
    var n := |closes|;
    if n < 2 then 0 else DownDays(closes[..n - 1]) + if closes[n - 1] < closes[n - 2] then 1 else 0
  }

  predicate SlowDecline(v: Parameters, closes: seq<real>)
    requires |closes| >= 2 && forall i | 0 <= i < |closes| :: closes[i] > 0.0
  {
    && closes[|closes| - 1] / closes[0] - 1.0 <= -v.declineThreshold
    && WorstReturn(closes) >= -v.crashThreshold
    && DownDays(closes) >= v.minimumDownDays
  }

  /** Was the window ending `age` days ago a slow decline? */
  predicate SetupAt(v: Parameters, h: History, age: nat)
    requires ValidParameters(v) && UsableHistory(v, h) && v.rebound && age <= v.windowDays
  {
    var index := |h.closes| - 1 - age;
    SlowDecline(v, h.closes[index - v.lookback + 1..index + 1])
  }

  predicate BeforeLastTrade(h: History, p: PositionState, age: nat)
    requires age < |h.days|
  {
    p.lastDate.Some? && h.days[|h.days| - 1 - age] < p.lastDate.value
  }

  function SetupAge(v: Parameters, h: History, p: PositionState, age: nat): Option<nat>
    requires ValidParameters(v) && UsableHistory(v, h) && v.rebound
    decreases v.windowDays + 1 - age
  {
    if age > v.windowDays || BeforeLastTrade(h, p, age) then None
    else if SetupAt(v, h, age) then Some(age)
    else SetupAge(v, h, p, age + 1)
  }

  /** The backward scan for a setup finds the most recent one since the last trade, or none exists
      before the scan meets the last trade or the window's end. */
  method FindSetup(v: Parameters, h: History, p: PositionState) returns (setup: Option<nat>)
    requires ValidParameters(v) && UsableHistory(v, h) && v.rebound
    ensures setup == SetupAge(v, h, p, 0)
    ensures setup.Some? ==>
              && setup.value <= v.windowDays && SetupAt(v, h, setup.value)
              && forall age: nat | age <= setup.value :: !BeforeLastTrade(h, p, age)
                   && (age < setup.value ==> !SetupAt(v, h, age))
    ensures setup.None? ==>
              forall age: nat | age <= v.windowDays && SetupAt(v, h, age) ::
                exists trade: nat :: trade <= age && BeforeLastTrade(h, p, trade)
  {
    var age: nat := 0;
    while age <= v.windowDays
      invariant age <= v.windowDays + 1
      invariant SetupAge(v, h, p, age) == SetupAge(v, h, p, 0)
      invariant forall k: nat | k < age :: !SetupAt(v, h, k) && !BeforeLastTrade(h, p, k)
    {
      if BeforeLastTrade(h, p, age) {
        return None;
      }
      if SetupAt(v, h, age) {
        return Some(age);
      }
      age := age + 1;
    }
    return None;
  }

  predicate ReboundConfirmed(v: Parameters, h: History, p: PositionState)
    requires ValidParameters(v) && UsableHistory(v, h) && v.rebound
  {
    var n := |h.closes|;
    && p.quantity == 0
    && SetupAge(v, h, p, 0).Some?
    && h.closes[n - 1] > Sum(h.closes[n - v.maDays..]) / v.maDays as real
    && h.closes[n - 1] > h.closes[n - 2]
  }

  predicate EntryAllowed(v: Parameters, h: History, p: PositionState)
    requires ValidParameters(v) && UsableHistory(v, h)
  {
    if v.rebound then ReboundConfirmed(v, h, p) else SlowDecline(v, h.closes[|h.closes| - v.lookback..])
  }

  /** The highest profit level reached, counted from 1; 0 when none is. */
  function ReachedTier(levels: seq<real>, profit: real): (tier: nat)
    ensures tier <= |levels|
    ensures tier > 0 ==> levels[tier - 1] <= profit
    ensures forall i | tier <= i < |levels| :: profit < levels[i]
  {
    if levels == [] then 0
    else if profit >= levels[|levels| - 1] then |levels|
    else ReachedTier(levels[..|levels| - 1], profit)
  }

  function ExitBase(p: PositionState): real {
    if p.exitBase.Some? then p.exitBase.value else p.quantity as real
  }

  function Portion(base: real, share: real): real {
    base * share
  }

  /** The lot-floored cumulative quantity the first `tier` levels call for. */
  function TierTarget(v: Parameters, p: PositionState, tier: nat, lot: int): int
    requires lot > 0 && tier <= |v.fractions|
  {
    S.FloorToLot(Portion(ExitBase(p), Sum(v.fractions[..tier])), lot)
  }

  function TierOrder(remaining: real, target: int, sold: real, lot: int): Option<Sizing>
    requires lot > 0
  {
    if remaining <= 0.0 && !(target == 0 && sold == 0.0) then None
    else if remaining < lot as real then Some(FullPosition)
    else Some(FixedQuantity(S.FloorToLot(remaining, lot)))
  }

  function TieredExit(v: Parameters, p: PositionState, profit: real, lot: int): Result<Option<Sizing>>
    requires ValidParameters(v)
  {
    if p.quantity == 0 then Ok(None)
    else if p.exitBase == None && p.lastSide == Some(SELL) then Err(INVALID)
    else if lot <= 0 then Err("DATA_REQUIRED_MISSING")
    else
      var tier := ReachedTier(v.levels, profit);
      if tier == 0 then Ok(None)
      else if tier == |v.levels| then Ok(Some(FullPosition))
      else
        var target := TierTarget(v, p, tier, lot);
        Ok(TierOrder(target as real - p.exitSold, target, p.exitSold, lot))
  }

  function Profit(close: real, p: PositionState): real
    requires p.basis > 0.0
  {
    close * p.quantity as real / p.basis - 1.0
  }

  function SellSizing(v: Parameters, p: PositionState, close: real, lot: int): Result<Option<Sizing>>
    requires ValidParameters(v) && (p.quantity > 0 ==> p.basis > 0.0)
  {
    if p.quantity <= 0 then Ok(None)
    else if v.tiered then TieredExit(v, p, Profit(close, p), lot)
    else if Profit(close, p) >= v.takeProfit then Ok(Some(CurrentPositionFraction(v.sellFraction)))
    else Ok(None)
  }

  /** Buy notional this cycle already used; a flat position starts a new cycle. */
  function CycleBuys(p: PositionState): real {
    if p.quantity == 0 then 0.0 else p.cumulativeBuys
  }

  function RemainingBudget(v: Parameters, capital: real, p: PositionState): real {
    MaxReal(0.0, capital * v.maxFraction - CycleBuys(p))
  }

  predicate AddAllowed(v: Parameters, p: PositionState, close: real) {
    && p.quantity > 0
    && p.lastBuyPrice.Some?
    && close <= p.lastBuyPrice.value * (1.0 - v.addThreshold)
    && (p.lastSide == Some(BUY) || (p.lastSide == Some(SELL) && v.addAfterSell))
  }

  /** One closing decision; at most one intent. */
  function Decide(v: Parameters, capital: real, p: PositionState, h: History): Result<Option<Intent>>
    requires ValidParameters(v)
  {
    if !UsableHistory(v, h) then Err("DATA_REQUIRED_MISSING")
    else if p.quantity > 0 && p.basis <= 0.0 then Err(INVALID)
    else
      var close := h.raw[|h.raw| - 1];
      var sell :- SellSizing(v, p, close, h.sellLot);
      if sell.Some? then Ok(Some(Intent(v.security, SELL, sell.value, 0, 0)))
      else if p.quantity == 0 && EntryAllowed(v, h, p) then
        Ok(Some(Intent(v.security, BUY, InitialCapitalFraction(v.buyFraction), 0, 0)))
      else
        var remaining := RemainingBudget(v, capital, p);
        if AddAllowed(v, p, close) && remaining > 0.0 then
          Ok(Some(Intent(
            v.security, BUY,
            if remaining >= capital * v.buyFraction then InitialCapitalFraction(v.buyFraction)
            else FixedNotional(remaining),
            0, 0)))
        else Ok(None)
  }

  function BuyNotional(sizing: Sizing, capital: real): Result<real> {
    match sizing
    case FixedNotional(amount) => Ok(amount)
    case InitialCapitalFraction(fraction) => Ok(capital * fraction)
    case _ => Err("STRATEGY_INTENT_INVALID")
  }

  /** A buy order of this notional keeps the cycle within the capital cap. */
  ghost predicate WithinBudget(v: Parameters, capital: real, p: PositionState, notional: real) {
    CycleBuys(p) + notional <= capital * v.maxFraction
  }

  /** Whatever the prices, a decision only ever orders the strategy's own security, and a BUY never
      orders more than the cycle's unused capital. */
  lemma DecisionStaysWithinBudget(v: Parameters, capital: real, p: PositionState, h: History)
    requires ValidParameters(v) && capital >= 0.0
    ensures var d := Decide(v, capital, p, h);
            d.Ok? && d.value.Some? ==>
              && d.value.value.security == v.security
              && (d.value.value.side == BUY ==>
                    && BuyNotional(d.value.value.sizing, capital).Ok?
                    && WithinBudget(v, capital, p, BuyNotional(d.value.value.sizing, capital).value))
  {
    MulMonotone(v.buyFraction, v.maxFraction, capital);
    hide SellSizing, EntryAllowed, AddAllowed;
  }

  /** The strategy's own state complaints, made once its history is complete, are exactly these: a held position
      without cost basis, or in tiered mode a position whose exit history is missing. */
  lemma DecideRefusesStateExactlyWhen(v: Parameters, capital: real, p: PositionState, h: History)
    requires ValidParameters(v) && p.quantity >= 0
    ensures Decide(v, capital, p, h) == Err(INVALID) <==>
            UsableHistory(v, h) && p.quantity > 0
            && (p.basis <= 0.0 || (v.tiered && p.exitBase == None && p.lastSide == Some(SELL)))
  {
  }
}
