/** What one placed order trades, in the day's own terms: the price from the open, the slippage and the limits; the
    quantity from the volume, the holding and the cash; and the reason it falls short. */
module Prices {
  import opened Base
  import opened Numeric
  import opened FeeSchedule
  import opened Sizing
  import opened Execution

  // ----- the price

  /** The open moved against the trader by the slippage. */
  function Target(side: Side, facts: Facts, bps: real): real {
    if side == BUY then facts.open + facts.open * bps / 10000.0 else facts.open - facts.open * bps / 10000.0
  }

  /** The day trades at this price, no limit forbids it, and it is no better than the open. */
  predicate Allowed(side: Side, price: real, facts: Facts) {
    && facts.low <= price <= facts.high && facts.downLimit <= price <= facts.upLimit
    && (side == BUY ==> facts.open <= price) && (side == SELL ==> price <= facts.open)
  }

  /** As near as ticks come; halves round away from zero. */
  predicate Nearest(price: real, target: real, tick: real) {
    && price - tick / 2.0 <= target <= price + tick / 2.0
    && (target > 0.0 ==> target < price + tick / 2.0)
    && (target < 0.0 ==> price - tick / 2.0 < target)
  }

  lemma QuantizedIsNearest(value: real, tick: real)
    requires tick > 0.0
    ensures Nearest(QuantizePrice(value, tick), value, tick)
  {
    var q := value / tick;
    var n := RoundHalfUp(q);
    DivideThenMultiply(value, tick);
    ScaleQuotient(q, n as real - 0.5, tick, value);
    ScaleQuotient(q, n as real + 0.5, tick, value);
    assert (n as real - 0.5) * tick == n as real * tick - tick / 2.0;
    assert (n as real + 0.5) * tick == n as real * tick + tick / 2.0;
    if value > 0.0 {
      QuotientIsPositive(value, tick);
    } else if value < 0.0 {
      QuotientIsPositive(-value, tick);
    }
  }

  lemma QuotientIsPositive(value: real, tick: real)
    requires value > 0.0 && tick > 0.0
    ensures value / tick > 0.0 && -value / tick < 0.0
  {
  }

  lemma SlippedIsNearTarget(side: Side, facts: Facts, bps: real)
    requires facts.tick > 0.0
    ensures Nearest(SlippedPrice(side, facts, bps), Target(side, facts, bps), facts.tick)
  {
    var target := Target(side, facts, bps);
    SlippageIsTheTarget(side, facts, bps);
    QuantizedIsNearest(target, facts.tick);
    hide Slipped, Target, QuantizePrice, Nearest;
    assert SlippedPrice(side, facts, bps) == QuantizePrice(target, facts.tick);
  }

  lemma SlippageIsTheTarget(side: Side, facts: Facts, bps: real)
    ensures Slipped(facts.open, if side == BUY then 1.0 else -1.0, bps) == Target(side, facts, bps)
  {
    SlippageIsAPart(facts.open, bps);
  }

  lemma SlippageIsAPart(open: real, bps: real)
    ensures Slipped(open, 1.0, bps) == open + open * bps / 10000.0
    ensures Slipped(open, -1.0, bps) == open - open * bps / 10000.0
  {
  }

  /** The worst price, for the trader, of those the bounds force on the order. */
  predicate ForcedBuy(price: real, facts: Facts) {
    price == facts.open || price == facts.low || price == facts.downLimit
  }

  predicate ForcedSell(price: real, facts: Facts) {
    price == facts.open || price == facts.high || price == facts.upLimit
  }

  lemma SlippedIsOnTick(side: Side, facts: Facts, bps: real)
    requires facts.tick > 0.0
    ensures exists n: int :: Ticks(n, facts.tick) == SlippedPrice(side, facts, bps)
  {
    var value := Slipped(facts.open, if side == BUY then 1.0 else -1.0, bps);
    assert Ticks(RoundHalfUp(value / facts.tick), facts.tick) == SlippedPrice(side, facts, bps);
  }

  /** A BUY price is a tick the day allows, no better than the open: the tick nearest to the slipped open; or, when
      that is too low, a bound that is itself a tick; or, when it is too high, the highest allowed tick. */
  lemma BuyPriceMeans(facts: Facts, bps: real)
    requires facts.tick > 0.0 && Price(BUY, facts, bps).Some?
    ensures var p, target := Price(BUY, facts, bps).value, Target(BUY, facts, bps);
            && OnTick(p, facts.tick) && Allowed(BUY, p, facts)
            && (|| Nearest(p, target, facts.tick)
                || (target <= p && ForcedBuy(p, facts))
                || (p <= target
                    && forall n: int | p < Ticks(n, facts.tick) :: !Allowed(BUY, Ticks(n, facts.tick), facts)))
  {
    hide SlippedPrice, Nearest, Ticks;
    BuyPriceIsExact(facts, bps);
    SlippedIsNearTarget(BUY, facts, bps);
    SlippedIsOnTick(BUY, facts, bps);
    var slipped := SlippedPrice(BUY, facts, bps);
    var p := Price(BUY, facts, bps).value;
    var top := Clamped(BUY, facts, bps);
    if slipped < LowerBound(BUY, facts) {
      NearestIsBelow(slipped, Target(BUY, facts, bps), facts.tick, p);
    } else if slipped <= UpperBound(BUY, facts) {
      assert top == slipped;
    } else {
      NearestIsAbove(slipped, Target(BUY, facts, bps), facts.tick, p);
    }
  }

  /** A tick above the one nearest to the target is above the target, or ties with it. */
  lemma NearestIsBelow(nearest: real, target: real, tick: real, p: real)
    requires tick > 0.0 && Nearest(nearest, target, tick) && nearest < p
    requires exists n: int :: Ticks(n, tick) == nearest
    requires OnTick(p, tick)
    ensures target <= p
  {
    var n: int :| Ticks(n, tick) == nearest;
    var m: int :| p == Ticks(m, tick);
    OneTickApart(n, m, tick);
  }

  lemma NearestIsAbove(nearest: real, target: real, tick: real, p: real)
    requires tick > 0.0 && Nearest(nearest, target, tick) && p < nearest
    requires exists n: int :: Ticks(n, tick) == nearest
    requires OnTick(p, tick)
    ensures p <= target
  {
    var n: int :| Ticks(n, tick) == nearest;
    var m: int :| p == Ticks(m, tick);
    OneTickApart(m, n, tick);
  }

  lemma OneTickApart(m: int, n: int, tick: real)
    requires tick > 0.0 && Ticks(m, tick) < Ticks(n, tick)
    ensures Ticks(m, tick) + tick <= Ticks(n, tick)
  {
    if n <= m {
      TicksAreOrdered(n, m, tick);
    } else {
      TicksAreOrdered(m + 1, n, tick);
      assert Ticks(m + 1, tick) == Ticks(m, tick) + tick;
    }
  }

  /** A SELL price likewise: nearest to the slipped open; or, when that is too high, a bound that is itself a tick;
      or, when it is too low, the lowest allowed tick. */
  lemma SellPriceMeans(facts: Facts, bps: real)
    requires facts.tick > 0.0 && Price(SELL, facts, bps).Some?
    ensures var p, target := Price(SELL, facts, bps).value, Target(SELL, facts, bps);
            && OnTick(p, facts.tick) && Allowed(SELL, p, facts)
            && (|| Nearest(p, target, facts.tick)
                || (p <= target && ForcedSell(p, facts))
                || (target <= p
                    && forall n: int | Ticks(n, facts.tick) < p :: !Allowed(SELL, Ticks(n, facts.tick), facts)))
  {
    hide SlippedPrice, Nearest, Ticks;
    SellPriceIsExact(facts, bps);
    SlippedIsNearTarget(SELL, facts, bps);
    SlippedIsOnTick(SELL, facts, bps);
    var slipped := SlippedPrice(SELL, facts, bps);
    var p := Price(SELL, facts, bps).value;
    var bottom := Clamped(SELL, facts, bps);
    if slipped > UpperBound(SELL, facts) {
      NearestIsAbove(slipped, Target(SELL, facts, bps), facts.tick, p);
    } else if slipped >= LowerBound(SELL, facts) {
      assert bottom == slipped;
    } else {
      NearestIsBelow(slipped, Target(SELL, facts, bps), facts.tick, p);
    }
  }

  /** The nearest tick is beyond the open or the day's range, and the bound it is pulled to is not a tick. */
  ghost predicate Stuck(side: Side, facts: Facts, bps: real) {
    var bound := if side == BUY then MaxReal(MaxReal(facts.open, facts.low), facts.downLimit)
                 else MinReal(MinReal(facts.open, facts.high), facts.upLimit);
    && !OnTick(bound, facts.tick)
    && exists n: int ::
         && Nearest(Ticks(n, facts.tick), Target(side, facts, bps), facts.tick)
         && if side == BUY then Ticks(n, facts.tick) < bound else bound < Ticks(n, facts.tick)
  }

  lemma NearestIsUnique(m: int, n: int, target: real, tick: real)
    requires tick > 0.0 && Nearest(Ticks(m, tick), target, tick) && Nearest(Ticks(n, tick), target, tick)
    ensures Ticks(m, tick) == Ticks(n, tick)
  {
    if Ticks(m, tick) < Ticks(n, tick) {
      OneTickApart(m, n, tick);
      HalfwayIsZero(m, target, tick);
    } else if Ticks(n, tick) < Ticks(m, tick) {
      OneTickApart(n, m, tick);
      HalfwayIsZero(n, target, tick);
    }
  }

  /** Nothing is halfway between ticks at zero. */
  lemma HalfwayIsZero(m: int, target: real, tick: real)
    requires tick > 0.0 && target == Ticks(m, tick) + tick / 2.0
    ensures target != 0.0
  {
    if m >= 0 {
      TicksAreOrdered(0, m, tick);
    } else {
      TicksAreOrdered(m, -1, tick);
    }
  }

  lemma StuckHasNoPrice(side: Side, facts: Facts, bps: real)
    requires facts.tick > 0.0 && Stuck(side, facts, bps)
    ensures Price(side, facts, bps).None?
  {
    hide SlippedPrice, Ticks, Nearest, Target;
    SlippedIsOnTick(side, facts, bps);
    SlippedIsNearTarget(side, facts, bps);
    var n: int :| Ticks(n, facts.tick) == SlippedPrice(side, facts, bps);
    var m: int :| Nearest(Ticks(m, facts.tick), Target(side, facts, bps), facts.tick)
              && if side == BUY then Ticks(m, facts.tick) < MaxReal(MaxReal(facts.open, facts.low), facts.downLimit)
                 else MinReal(MinReal(facts.open, facts.high), facts.upLimit) < Ticks(m, facts.tick);
    NearestIsUnique(m, n, Target(side, facts, bps), facts.tick);
    if side == BUY {
      BuyPriceIsExact(facts, bps);
    } else {
      SellPriceIsExact(facts, bps);
    }
  }

  lemma UnstuckTakesAnyTick(side: Side, facts: Facts, bps: real, k: int)
    requires facts.tick > 0.0 && Price(side, facts, bps).None? && !Stuck(side, facts, bps)
    ensures !Allowed(side, Ticks(k, facts.tick), facts)
  {
    hide SlippedPrice, Ticks, Nearest, Target;
    SlippedIsOnTick(side, facts, bps);
    SlippedIsNearTarget(side, facts, bps);
    var slipped := SlippedPrice(side, facts, bps);
    if side == BUY {
      BuyPriceIsExact(facts, bps);
    } else {
      SellPriceIsExact(facts, bps);
    }
    assert LowerBound(side, facts) <= slipped <= UpperBound(side, facts) ==> Allowed(side, slipped, facts);
  }

  lemma PriceIsAllowed(side: Side, facts: Facts, bps: real)
    requires facts.tick > 0.0 && Price(side, facts, bps).Some?
    ensures exists n: int :: Allowed(side, Ticks(n, facts.tick), facts)
  {
    assert Price(side, facts, bps).value == Ticks(PriceTicks(side, facts, bps), facts.tick);
  }

  /** An order has no price exactly when no tick is allowed, or it is stuck at a bound that is not a tick. */
  lemma NoPriceExactlyWhen(side: Side, facts: Facts, bps: real)
    requires facts.tick > 0.0
    ensures Price(side, facts, bps).None? <==>
            || (forall n: int :: !Allowed(side, Ticks(n, facts.tick), facts))
            || Stuck(side, facts, bps)
  {
    hide Price, Ticks, Stuck, Allowed;
    if Price(side, facts, bps).Some? {
      PriceIsAllowed(side, facts, bps);
    }
    if Stuck(side, facts, bps) {
      StuckHasNoPrice(side, facts, bps);
    } else if Price(side, facts, bps).None? {
      forall k: int
        ensures !Allowed(side, Ticks(k, facts.tick), facts)
      {
        UnstuckTakesAnyTick(side, facts, bps, k);
      }
    }
  }

  // ----- the quantity

  lemma WholeSharesWithin(volume: int, participation: real)
    ensures TradedShare(volume, participation) as real <= volume as real * participation
    ensures volume as real * participation < (TradedShare(volume, participation) + 1) as real
  {
  }

  /** The day's volume lets an order trade the largest whole number of its lots within the participation, or of single
      shares when it sells the whole holding. */
  lemma CapacityMeans(instruction: Instruction, facts: Facts, holding: int, participation: real)
    requires instruction.lot > 0
    ensures var step := if instruction.side == SELL && instruction.requested == holding then 1 else instruction.lot;
            var capacity := Capacity(instruction, facts, holding, participation);
            && capacity % step == 0
            && capacity as real <= facts.volume as real * participation < (capacity + step) as real
  {
    WholeSharesWithin(facts.volume, participation);
    hide TradedShare;
    var raw := TradedShare(facts.volume, participation);
    assert raw == raw / instruction.lot * instruction.lot + raw % instruction.lot;
    ModuloOfMultiple(raw / instruction.lot, instruction.lot);
  }

  /** What stops an order altogether before any price is looked at. */
  function Barred(side: Side, facts: Facts): Option<Reason> {
    if facts.suspended then Some(SUSPENDED)
    else
      match side
      case BUY => if facts.limitUpLocked then Some(LIMIT_UP_LOCKED) else None
      case SELL => if facts.limitDownLocked then Some(LIMIT_DOWN_LOCKED) else None
  }

  /** A barred or unpriced order trades nothing and says why. */
  lemma BarredOrdersSayWhy(
    model: FeeModel, instruction: Instruction, facts: Facts, onDate: Date, cash: real,
    holding: int, sellable: int, participation: real, bps: real)
    requires facts.tick > 0.0 && instruction.lot > 0
    ensures var out := Execute(model, instruction, facts, onDate, cash, holding, sellable, participation, bps);
            && (Barred(instruction.side, facts).Some? ==>
                  out == Ok(Outcome(None, Barred(instruction.side, facts), instruction.requested)))
            && (Barred(instruction.side, facts).None? && Price(instruction.side, facts, bps).None? ==>
                  out == Ok(Outcome(None, Some(NO_EXECUTION_PRICE), instruction.requested)))
  {
    hide Price, Capacity, CashQuantity, Fill;
  }

  /** A priced SELL trades all that the request, the volume, the holding and the sellable shares let it; when that is
      nothing it says the shares were not sellable; and it says the volume cut it exactly when the volume did. */
  lemma SellFillMeans(
    model: FeeModel, instruction: Instruction, facts: Facts, onDate: Date, cash: real,
    holding: int, sellable: int, participation: real, bps: real)
    requires facts.tick > 0.0 && instruction.lot > 0 && instruction.side == SELL
    requires Barred(SELL, facts).None? && Price(SELL, facts, bps).Some?
    requires Execute(model, instruction, facts, onDate, cash, holding, sellable, participation, bps).Ok?
    ensures var out := Execute(model, instruction, facts, onDate, cash, holding, sellable, participation, bps).value;
            var capacity := Capacity(instruction, facts, holding, participation);
            var filled := instruction.requested - out.unfilled;
            && filled <= instruction.requested && filled <= capacity && filled <= holding && filled <= sellable
            && (filled == instruction.requested || filled == capacity || filled == holding || filled == sellable)
            && (out.record.None? <==> filled == 0)
            && (out.record.None? ==> out.reason == Some(SELLABLE_INSUFFICIENT))
            && (out.record.Some? ==>
                  && out.reason == (if capacity < instruction.requested then Some(VOLUME_CAP) else None)
                  && Reports(out, instruction, onDate, filled, Price(SELL, facts, bps).value, model, facts.asset))
  {
    hide Price, Capacity, Gross, Calculate;
  }

  /** The record carries the fill, its price, its amount and its fees. */
  predicate Reports(
    out: Outcome, instruction: Instruction, onDate: Date, filled: int, price: real, model: FeeModel, asset: Asset)
  {
    && out.record.Some?
    && var r := out.record.value;
       && r.date == onDate && r.security == instruction.security && r.side == instruction.side
       && r.requested == instruction.requested && r.filled == filled && r.price == price
       && r.gross == Gross(filled, price) && Calculate(model, asset, instruction.side, r.gross, onDate) == Ok(r.fees)
       && (r.complete <==> filled == instruction.requested) && r.reason == out.reason
  }

  /** A priced BUY says the volume cut it exactly when the volume did, and otherwise the cash. */
  lemma BuyFillMeans(
    model: FeeModel, instruction: Instruction, facts: Facts, onDate: Date, cash: real,
    holding: int, sellable: int, participation: real, bps: real)
    requires facts.tick > 0.0 && instruction.lot > 0 && instruction.side == BUY
    requires Barred(BUY, facts).None? && Price(BUY, facts, bps).Some?
    requires Execute(model, instruction, facts, onDate, cash, holding, sellable, participation, bps).Ok?
    ensures var out := Execute(model, instruction, facts, onDate, cash, holding, sellable, participation, bps).value;
            var capacity := Capacity(instruction, facts, holding, participation);
            var filled := instruction.requested - out.unfilled;
            && (out.record.None? <==> filled == 0)
            && (out.record.None? ==> out.reason == Some(CASH_INSUFFICIENT))
            && (out.record.Some? ==>
                  && out.reason == (if capacity < instruction.requested then Some(VOLUME_CAP)
                                    else if filled < instruction.requested then Some(CASH_INSUFFICIENT)
                                    else None)
                  && Reports(out, instruction, onDate, filled, Price(BUY, facts, bps).value, model, facts.asset))
  {
    hide Price, Capacity, Gross, Calculate, CashQuantity;
  }
}
