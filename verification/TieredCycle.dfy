/** Tiered profit taking over one holding cycle without further buys or corporate actions. */
module TieredCycle {
  import opened Base
  import opened Numeric
  import opened Sizing
  import opened FeeSchedule
  import opened Execution
  import opened Reducer
  import opened StagedDrawdown
  import opened IntentExecutor

  /** The cumulative share of the base the first `tier` levels sell. */
  function Share(v: Parameters, tier: nat): real
    requires tier <= |v.fractions|
  {
    Sum(v.fractions[..tier])
  }

  lemma {:induction false} SharesIncrease(v: Parameters, low: nat, high: nat)
    requires ValidParameters(v) && low <= high <= |v.fractions|
    ensures Share(v, low) <= Share(v, high)
    ensures low < high ==> Share(v, low) < Share(v, high)
    decreases high - low
  {
    if low < high {
      assert v.fractions[..high][..high - 1] == v.fractions[..high - 1];
      SharesIncrease(v, low, high - 1);
    }
  }

  lemma ShareBelowLastTier(v: Parameters, tier: nat)
    requires ValidParameters(v) && tier < |v.fractions|
    ensures 0.0 <= Share(v, tier) < 1.0
  {
    SharesIncrease(v, tier, |v.fractions|);
    assert v.fractions[..|v.fractions|] == v.fractions;
    SharesIncrease(v, 0, tier);
  }

  /** `base` shares at the start of selling, `lots` whole lots of them sold so far. */
  ghost predicate Selling(p: PositionState, base: nat, lots: nat, lot: Positive) {
    && p.quantity > 0 && base > 0
    && p.exitSold == (lots * lot) as real
    && p.quantity == base - lots * lot
    && ExitBase(p) == base as real
    && (p.exitBase.None? ==> p.lastSide != Some(SELL) && lots == 0)
  }

  /** A tier's target is a lot multiple, strictly below the base unless it is the last tier, and does
      not fall as tiers rise. */
  lemma TargetIsBelowBase(v: Parameters, p: PositionState, tier: nat, lot: Positive)
    requires ValidParameters(v) && tier < |v.fractions| && ExitBase(p) > 0.0
    ensures 0 <= TierTarget(v, p, tier, lot) && (TierTarget(v, p, tier, lot) as real) < ExitBase(p)
    ensures TierTarget(v, p, tier, lot) % lot == 0
  {
    ShareBelowLastTier(v, tier);
    PortionIsBelow(ExitBase(p), Share(v, tier));
    FloorToLotIsExact(Portion(ExitBase(p), Share(v, tier)), lot);
  }

  lemma PortionIsBelow(base: real, share: real)
    requires base > 0.0 && 0.0 <= share < 1.0
    ensures 0.0 <= Portion(base, share) < base
  {
    MulStrictlyMonotone(share, 1.0, base);
    MulMonotone(0.0, share, base);
  }

  lemma PortionIsMonotone(base: real, low: real, high: real)
    requires base > 0.0 && low <= high
    ensures Portion(base, low) <= Portion(base, high)
  {
    MulMonotone(low, high, base);
  }

  lemma TargetsIncrease(v: Parameters, p: PositionState, low: nat, high: nat, lot: Positive)
    requires ValidParameters(v) && low <= high <= |v.fractions| && ExitBase(p) > 0.0
    ensures TierTarget(v, p, low, lot) <= TierTarget(v, p, high, lot)
  {
    SharesIncrease(v, low, high);
    PortionIsMonotone(ExitBase(p), Share(v, low), Share(v, high));
    FloorToLotIsMonotone(Portion(ExitBase(p), Share(v, low)), Portion(ExitBase(p), Share(v, high)), lot);
  }

  /** At a tier below the last, what is ordered for any amount sold so far: nothing when the target
      is met, the whole position when it is unreachable in lots, a fixed quantity otherwise. */
  lemma TierOrderExactly(v: Parameters, p: PositionState, profit: real, lot: Positive)
    requires ValidParameters(v) && p.quantity > 0 && !(p.exitBase == None && p.lastSide == Some(SELL))
    requires 0 < ReachedTier(v.levels, profit) < |v.levels|
    ensures var target := TierTarget(v, p, ReachedTier(v.levels, profit), lot);
            var left := target as real - p.exitSold;
            var order := TieredExit(v, p, profit, lot);
            && (order == Ok(None) <==> left <= 0.0 && !(target == 0 && p.exitSold == 0.0))
            && (order == Ok(Some(FullPosition)) <==> (target == 0 && p.exitSold == 0.0) || 0.0 < left < lot as real)
            && (order.Ok? && order.value.Some? && order.value.value.FixedQuantity? <==> left >= lot as real)
  {
  }

  /** While whole lots have been sold, a tier either orders exactly what its target still lacks, a
      whole number of lots strictly below the position, or stays silent; only a target smaller than
      one lot empties the position early. */
  lemma LotFillsKeepTiersExact(v: Parameters, p: PositionState, profit: real, base: nat, lots: nat, lot: Positive)
    requires ValidParameters(v) && Selling(p, base, lots, lot)
    requires 0 < ReachedTier(v.levels, profit) < |v.levels|
    ensures var target := TierTarget(v, p, ReachedTier(v.levels, profit), lot);
            var order := TieredExit(v, p, profit, lot);
            && target < base
            && (order == Ok(Some(FixedQuantity(target - lots * lot))) <==> lots * lot < target)
            && (order == Ok(Some(FullPosition)) <==> target == 0 == lots)
            && (order == Ok(None) <==> target <= lots * lot && lots > 0)
            && (lots * lot < target ==>
                  0 < target - lots * lot < p.quantity && (target - lots * lot) % lot == 0)
  {
    var tier := ReachedTier(v.levels, profit);
    var target := TierTarget(v, p, tier, lot);
    TargetIsBelowBase(v, p, tier, lot);
    TierOrderExactly(v, p, profit, lot);
    OrderOfWholeLots(target, lots, lot);
  }

  lemma OrderOfWholeLots(target: nat, lots: nat, lot: Positive)
    requires target % lot == 0
    ensures var sold := lots * lot;
            var order := TierOrder(target as real - sold as real, target, sold as real, lot);
            && (sold < target ==>
                  && order == Some(FixedQuantity(target - sold)) && target - sold >= lot && (target - sold) % lot == 0)
            && (target <= sold && lots > 0 ==> sold > 0 && order == None)
            && (target == 0 && lots == 0 ==> order == Some(FullPosition))
  {
    hide FloorToLot;
    var n, sold := target / lot, lots * lot;
    assert target == n * lot + target % lot;
    MissingLots(n, lots, lot, target, sold);
  }

  lemma MissingLots(n: nat, lots: nat, lot: Positive, target: nat, sold: nat)
    requires target == n * lot && sold == lots * lot
    ensures sold < target ==> target - sold >= lot
    ensures (target - sold) % lot == 0 && FloorToLot(target as real - sold as real, lot) == target - sold
    ensures lots > 0 ==> sold > 0
  {
    hide FloorToLot;
    MultiplesAreApart(lots, n, lot);
    MultiplesAreApart(n, lots, lot);
    MultiplesAreApart(0, lots, lot);
    LotsApart(n, lots, lot);
    WholeLotsStay(n - lots, lot);
    ModuloOfMultiple(n - lots, lot);
    assert ((n - lots) * lot) as real == target as real - sold as real;
  }

  lemma LotsApart(n: int, lots: int, lot: int)
    ensures (n - lots) * lot == n * lot - lots * lot
  {
  }

  /** A fixed-size tier order reaches the market whole: the executor asks for exactly that much. */
  lemma TierOrderIsRequestedWhole(
    intent: Intent, quantity: Positive, current: int, capital: real, row: Row, reference: real, facts: Facts,
    slippage: real)
    requires ValidFacts(facts) && reference > 0.0
    requires intent.side == SELL && intent.sizing == FixedQuantity(quantity)
    requires quantity < current && quantity % row.sellLot == 0
    ensures Size(intent, current, capital, row, reference, facts, slippage)
            == Ok(Some(Instruction(intent.security, SELL, quantity, row.sellLot)))
  {
    assert quantity == quantity / row.sellLot * row.sellLot + quantity % row.sellLot;
  }

  /** One decision and its (partial) fill inside a cycle. */
  datatype TierFill = TierFill(profit: real, record: Record)

  predicate Fires(v: Parameters, p: PositionState, fill: TierFill, lot: Positive)
    requires ValidParameters(v)
  {
    var order := TieredExit(v, p, fill.profit, lot);
    && 0 < ReachedTier(v.levels, fill.profit) < |v.levels|
    && order.Ok? && order.value.Some? && order.value.value.FixedQuantity?
    && fill.record.side == SELL
    && 0 < fill.record.filled <= order.value.value.quantity
    && fill.record.filled % lot == 0
  }

  /** Any history of tier orders, each filled in part or in full by whole lots. */
  predicate History(v: Parameters, p: PositionState, fills: seq<TierFill>, lot: Positive)
    requires ValidParameters(v)
    decreases |fills|
  {
    fills == [] || (Fires(v, p, fills[0], lot) && History(v, Sold(p, fills[0].record), fills[1..], lot))
  }

  function After(p: PositionState, fills: seq<TierFill>): PositionState
    decreases |fills|
  {
    if fills == [] then p else After(Sold(p, fills[0].record), fills[1..])
  }

  function HighestTier(v: Parameters, fills: seq<TierFill>): (tier: nat)
    ensures tier <= |v.levels|
  {
    if fills == [] then 0
    else
      var rest := HighestTier(v, fills[1..]);
      var first := ReachedTier(v.levels, fills[0].profit);
      if first > rest then first else rest
  }

  lemma MoreLots(lots: nat, filled: Positive, lot: Positive) returns (more: nat)
    requires filled % lot == 0
    ensures more > lots && more * lot == lots * lot + filled
  {
    more := lots + filled / lot;
    assert filled == filled / lot * lot + filled % lot;
    assert more * lot == lots * lot + filled / lot * lot;
  }

  lemma OneFillKeepsSelling(v: Parameters, p: PositionState, fill: TierFill, base: nat, lots: nat, lot: Positive)
    returns (more: nat)
    requires ValidParameters(v) && Selling(p, base, lots, lot) && Fires(v, p, fill, lot)
    ensures more > lots && Selling(Sold(p, fill.record), base, more, lot)
    ensures more * lot == lots * lot + fill.record.filled <= TierTarget(v, p, ReachedTier(v.levels, fill.profit), lot)
    ensures Sold(p, fill.record).exitBase == Some(base as real)
    ensures fill.record.filled < p.quantity
  {
    LotFillsKeepTiersExact(v, p, fill.profit, base, lots, lot);
    TierOrderExactly(v, p, fill.profit, lot);
    hide TieredExit, TierTarget;
    more := MoreLots(lots, fill.record.filled, lot);
  }

  ghost predicate SomeLotsSold(q: PositionState, base: nat, lot: Positive) {
    exists lots: nat :: Selling(q, base, lots, lot)
  }

  /** Progress of a tiered exit over any history of orders and whole-lot fills: the base is locked
      at the first sale and never moves, base minus sold is always the quantity held, shares remain,
      and the total sold never passes the target of the highest tier that fired. */
  lemma {:induction false} TieredExitProgress(
    v: Parameters, p: PositionState, fills: seq<TierFill>, base: nat, lots: nat, lot: Positive)
    requires ValidParameters(v) && Selling(p, base, lots, lot) && History(v, p, fills, lot)
    ensures var q := After(p, fills);
            && SomeLotsSold(q, base, lot)
            && (fills != [] ==>
                  && q.exitBase == Some(base as real)
                  && HighestTier(v, fills) < |v.levels|
                  && q.exitSold <= TierTarget(v, p, HighestTier(v, fills), lot) as real)
    decreases |fills|
  {
    if fills != [] {
      var more := OneFillKeepsSelling(v, p, fills[0], base, lots, lot);
      var next := Sold(p, fills[0].record);
      TieredExitProgress(v, next, fills[1..], base, more, lot);
      var first, rest := ReachedTier(v.levels, fills[0].profit), HighestTier(v, fills[1..]);
      var highest := HighestTier(v, fills);
      TargetsIncrease(v, p, first, highest, lot);
      SameTargets(v, p, next, rest, lot);
      TargetsIncrease(v, p, rest, highest, lot);
      assert fills[1..] == [] ==> After(p, fills) == next;
    }
  }

  lemma SameTargets(v: Parameters, p: PositionState, q: PositionState, tier: nat, lot: Positive)
    requires tier <= |v.fractions| && ExitBase(p) == ExitBase(q)
    ensures TierTarget(v, p, tier, lot) == TierTarget(v, q, tier, lot)
  {
  }

  /** A tier filled in full stays silent, and so does every lower tier, until a higher one fires. */
  lemma FilledTierStaysSilent(
    v: Parameters, p: PositionState, fill: TierFill, base: nat, lots: nat, lot: Positive, profit: real)
    requires ValidParameters(v) && Selling(p, base, lots, lot) && Fires(v, p, fill, lot)
    requires fill.record.filled == TierTarget(v, p, ReachedTier(v.levels, fill.profit), lot) - lots * lot
    requires ReachedTier(v.levels, profit) <= ReachedTier(v.levels, fill.profit)
    ensures TieredExit(v, Sold(p, fill.record), profit, lot) == Ok(None)
  {
    var more := OneFillKeepsSelling(v, p, fill, base, lots, lot);
    var q := Sold(p, fill.record);
    var tier := ReachedTier(v.levels, profit);
    if tier > 0 {
      SameTargets(v, p, q, tier, lot);
      TargetsIncrease(v, p, tier, ReachedTier(v.levels, fill.profit), lot);
      LotFillsKeepTiersExact(v, q, profit, base, more, lot);
    }
  }

  /** What the executor makes of a tier order: when the sellable shares are a whole number of lots, its fill is
      one the progress theorem speaks of. */
  lemma WholeLotExecutionFires(
    v: Parameters, p: PositionState, profit: real, base: nat, lots: nat, lot: Positive, s: Id,
    model: FeeModel, facts: Facts, day: Date, cash: real, sellable: int, participation: real, slippage: real)
    requires ValidParameters(v) && Selling(p, base, lots, lot) && 0 < ReachedTier(v.levels, profit) < |v.levels|
    requires ValidFacts(facts) && participation >= 0.0 && 0 <= sellable <= p.quantity && sellable % lot == 0
    requires lots * lot < TierTarget(v, p, ReachedTier(v.levels, profit), lot)
    requires var q := TierTarget(v, p, ReachedTier(v.levels, profit), lot) - lots * lot;
             var out := Execute(model, Instruction(s, SELL, q, lot), facts, day, cash, p.quantity, sellable,
                                participation, slippage);
             out.Ok? && out.value.record.Some?
    ensures var q := TierTarget(v, p, ReachedTier(v.levels, profit), lot) - lots * lot;
            var r := Execute(model, Instruction(s, SELL, q, lot), facts, day, cash, p.quantity, sellable, participation,
                             slippage).value.record.value;
            Fires(v, p, TierFill(profit, r), lot)
  {
    LotFillsKeepTiersExact(v, p, profit, base, lots, lot);
    hide TierTarget, TieredExit, Execute;
    var q := TierTarget(v, p, ReachedTier(v.levels, profit), lot) - lots * lot;
    var instruction := Instruction(s, SELL, q, lot);
    SellFillIsBounded(model, instruction, facts, day, cash, p.quantity, sellable, participation, slippage);
    SellFillsWholeLotsExactlyWhen(model, instruction, facts, day, cash, p.quantity, sellable, participation, slippage);
  }
}
