/** Fill simulation for one instruction: price, volume, holding and cash limits. */
module Execution {
  import opened Base
  import opened Numeric
  import opened FeeSchedule
  import opened Sizing

  datatype Facts = Facts(
    asset: Asset, open: real, high: real, low: real, upLimit: real, downLimit: real,
    volume: int, tick: real, suspended: bool, limitUpLocked: bool, limitDownLocked: bool)

  datatype Reason =
    SUSPENDED | LIMIT_UP_LOCKED | LIMIT_DOWN_LOCKED | NO_EXECUTION_PRICE |
    VOLUME_CAP | CASH_INSUFFICIENT | SELLABLE_INSUFFICIENT

  datatype Instruction = Instruction(security: Id, side: Side, requested: int, lot: int)

  datatype Record = Record(
    date: Date, security: Id, side: Side, requested: int, filled: int,
    price: real, gross: real, fees: Fees, complete: bool, reason: Option<Reason>)

  datatype Outcome = Outcome(record: Option<Record>, reason: Option<Reason>, unfilled: int)

  /** The data layer refuses nonpositive prices and ticks; volumes are share counts. */
  predicate ValidFacts(facts: Facts) {
    && facts.open > 0.0 && facts.high > 0.0 && facts.low > 0.0
    && facts.upLimit > 0.0 && facts.downLimit > 0.0
    && facts.tick > 0.0 && facts.volume >= 0
  }

  function LowerBound(side: Side, facts: Facts): real {
    if side == BUY then MaxReal(MaxReal(facts.open, facts.low), facts.downLimit)
    else MaxReal(facts.low, facts.downLimit)
  }

  function UpperBound(side: Side, facts: Facts): real {
    if side == BUY then MinReal(facts.high, facts.upLimit)
    else MinReal(MinReal(facts.open, facts.high), facts.upLimit)
  }

  function Slipped(open: real, direction: real, slippageBps: real): real {
    open * (1.0 + direction * slippageBps / 10000.0)
  }

  function SlippedPrice(side: Side, facts: Facts, slippageBps: real): real
    requires facts.tick > 0.0
  {
    QuantizePrice(Slipped(facts.open, if side == BUY then 1.0 else -1.0, slippageBps), facts.tick)
  }

  /** The slipped price pulled into the bounds; the bound that can hurt the trader less wins last. */
  function Clamped(side: Side, facts: Facts, slippageBps: real): real
    requires facts.tick > 0.0
  {
    var price := SlippedPrice(side, facts, slippageBps);
    if side == BUY then MinReal(MaxReal(price, LowerBound(side, facts)), UpperBound(side, facts))
    else MaxReal(MinReal(price, UpperBound(side, facts)), LowerBound(side, facts))
  }

  function PriceTicks(side: Side, facts: Facts, slippageBps: real): int
    requires facts.tick > 0.0
  {
    var quotient := Clamped(side, facts, slippageBps) / facts.tick;
    if side == BUY then quotient.Floor else Ceiling(quotient)
  }

  function Price(side: Side, facts: Facts, slippageBps: real): Option<real>
    requires facts.tick > 0.0
  {
    var result := Ticks(PriceTicks(side, facts, slippageBps), facts.tick);
    if LowerBound(side, facts) <= result <= UpperBound(side, facts) then Some(result) else None
  }

  function TotalFee(model: FeeModel, asset: Asset, side: Side, price: real, onDate: Date): nat -> real {
    (quantity: nat) =>
      var fees := Calculate(model, asset, side, Gross(quantity, price), onDate);
      if fees.Ok? then fees.value.Total() else 0.0
  }

  function TradedShare(volume: int, participation: real): int {
    (volume as real * participation).Floor
  }

  /** Shares the day's volume lets this instruction trade; a full exit may take an odd lot. */
  function Capacity(instruction: Instruction, facts: Facts, holding: int, participation: real): int
    requires instruction.lot > 0
  {
    var raw := TradedShare(facts.volume, participation);
    if instruction.side == SELL && instruction.requested == holding then raw
    else raw / instruction.lot * instruction.lot
  }

  function Unfilled(instruction: Instruction, reason: Reason): Result<Outcome> {
    Ok(Outcome(None, Some(reason), instruction.requested))
  }

  function CashQuantity(
    desired: int, lot: nat, price: real, cash: real, model: FeeModel, asset: Asset, onDate: Date): Result<nat>
    requires lot > 0
  {
    if MaxLots(desired, lot) == 0 then Ok(0)
    else
      var _ :- RatesOn(model, asset, onDate);
      Ok(LotShares(Bisect(Affords(lot, price, cash, TotalFee(model, asset, BUY, price, onDate)), 0,
                          MaxLots(desired, lot)), lot))
  }

  function Fill(
    model: FeeModel, instruction: Instruction, facts: Facts, onDate: Date,
    price: real, quantity: int, reason: Option<Reason>): Result<Outcome>
  {
    var gross := Gross(quantity, price);
    var fees :- Calculate(model, facts.asset, instruction.side, gross, onDate);
    Ok(Outcome(
      Some(Record(onDate, instruction.security, instruction.side, instruction.requested, quantity,
                  price, gross, fees, quantity == instruction.requested, reason)),
      reason,
      instruction.requested - quantity))
  }

  function Execute(
    model: FeeModel, instruction: Instruction, facts: Facts, onDate: Date, cash: real,
    holding: int, sellable: int, participation: real, slippageBps: real): Result<Outcome>
    requires facts.tick > 0.0 && instruction.lot > 0
  {
    if facts.suspended then Unfilled(instruction, SUSPENDED)
    else if instruction.side == BUY && facts.limitUpLocked then Unfilled(instruction, LIMIT_UP_LOCKED)
    else if instruction.side == SELL && facts.limitDownLocked then Unfilled(instruction, LIMIT_DOWN_LOCKED)
    else
      var price := Price(instruction.side, facts, slippageBps);
      if price.None? then Unfilled(instruction, NO_EXECUTION_PRICE)
      else
        var capped := Min(instruction.requested, Capacity(instruction, facts, holding, participation));
        var volumeReason := if capped < instruction.requested then Some(VOLUME_CAP) else None;
        if instruction.side == SELL then
          var quantity := Min(Min(capped, holding), sellable);
          if quantity == 0 then Unfilled(instruction, SELLABLE_INSUFFICIENT)
          else Fill(model, instruction, facts, onDate, price.value, quantity, volumeReason)
        else
          var quantity :- CashQuantity(capped, instruction.lot, price.value, cash, model, facts.asset, onDate);
          if quantity == 0 then Unfilled(instruction, CASH_INSUFFICIENT)
          else
            Fill(model, instruction, facts, onDate, price.value, quantity,
                 if quantity < instruction.requested && volumeReason == None then Some(CASH_INSUFFICIENT)
                 else volumeReason)
  }

  /** An execution price is on the tick, within the day's range and limits, and never better than
      the open; it exists exactly when the rounding direction leaves a tick inside the bounds, and
      it is then the tick closest to the clamped price on the side that favours the trader. */
  lemma BuyPriceIsExact(facts: Facts, slippageBps: real)
    requires facts.tick > 0.0
    ensures var p := Price(BUY, facts, slippageBps);
            var top := Clamped(BUY, facts, slippageBps);
            && (p.Some? ==>
                  && OnTick(p.value, facts.tick)
                  && facts.open <= p.value && facts.low <= p.value && facts.downLimit <= p.value
                  && p.value <= top && p.value <= facts.high && p.value <= facts.upLimit
                  && forall n: int :: Ticks(n, facts.tick) <= top ==> Ticks(n, facts.tick) <= p.value)
            && (p.None? ==> forall n: int :: !(LowerBound(BUY, facts) <= Ticks(n, facts.tick) <= top))
  {
    var top := Clamped(BUY, facts, slippageBps);
    var floor := PriceTicks(BUY, facts, slippageBps);
    TickFloor(top, facts.tick);
    forall n: int | Ticks(n, facts.tick) <= top
      ensures Ticks(n, facts.tick) <= Ticks(floor, facts.tick)
    {
      LargestTick(top, facts.tick, n);
      MulMonotone(n as real, floor as real, facts.tick);
    }
  }

  lemma SellPriceIsExact(facts: Facts, slippageBps: real)
    requires facts.tick > 0.0
    ensures var p := Price(SELL, facts, slippageBps);
            var bottom := Clamped(SELL, facts, slippageBps);
            && (p.Some? ==>
                  && OnTick(p.value, facts.tick)
                  && p.value <= facts.open && p.value <= facts.high && p.value <= facts.upLimit
                  && bottom <= p.value && facts.low <= p.value && facts.downLimit <= p.value
                  && forall n: int :: bottom <= Ticks(n, facts.tick) ==> p.value <= Ticks(n, facts.tick))
            && (p.None? ==> forall n: int :: !(bottom <= Ticks(n, facts.tick) <= UpperBound(SELL, facts)))
  {
    var bottom := Clamped(SELL, facts, slippageBps);
    var ceiling := PriceTicks(SELL, facts, slippageBps);
    TickCeiling(bottom, facts.tick);
    forall n: int | bottom <= Ticks(n, facts.tick)
      ensures Ticks(ceiling, facts.tick) <= Ticks(n, facts.tick)
    {
      SmallestTick(bottom, facts.tick, n);
      MulMonotone(ceiling as real, n as real, facts.tick);
    }
  }

  /** What a BUY fill guarantees the account: at least one lot, a whole number of lots, within the
      request and the volume cap, affordable with its fees, at the modelled price, and maximal. */
  lemma BuyFillIsMaximal(
    model: FeeModel, instruction: Instruction, facts: Facts, onDate: Date, cash: real,
    holding: int, sellable: int, participation: real, slippageBps: real)
    requires ValidFacts(facts) && instruction.lot > 0 && instruction.requested > 0 && instruction.side == BUY
    requires Execute(model, instruction, facts, onDate, cash, holding, sellable, participation, slippageBps).Ok?
    ensures
      var out := Execute(model, instruction, facts, onDate, cash, holding, sellable, participation, slippageBps).value;
      out.record.Some? ==>
        var r := out.record.value;
        && r.date == onDate && r.security == instruction.security && r.side == BUY
        && 0 < r.filled <= Min(instruction.requested, Capacity(instruction, facts, holding, participation))
        && r.filled % instruction.lot == 0
        && Some(r.price) == Price(BUY, facts, slippageBps) && r.gross == Gross(r.filled, r.price) && r.gross > 0.0
        && r.gross + r.fees.Total() <= cash
        && out.unfilled == instruction.requested - r.filled
        && (out.unfilled > 0 <==> out.reason.Some?)
        && (Sane(model) ==> forall more: nat ::
              r.filled < more <= Min(instruction.requested, Capacity(instruction, facts, holding, participation))
              && more % instruction.lot == 0 ==>
                Gross(more, r.price) + TotalFee(model, facts.asset, BUY, r.price, onDate)(more) > cash)
  {
    var out := Execute(model, instruction, facts, onDate, cash, holding, sellable, participation, slippageBps).value;
    if out.record.Some? {
      var price := Price(BUY, facts, slippageBps).value;
      var capped := Min(instruction.requested, Capacity(instruction, facts, holding, participation));
      BuyPriceIsExact(facts, slippageBps);
      CashQuantityFits(capped, instruction.lot, price, cash, model, facts.asset, onDate);
      GrossIsPositive(out.record.value.filled, price);
      if Sane(model) {
        CashQuantityIsLargest(capped, instruction.lot, price, cash, model, facts.asset, onDate);
      }
    }
  }

  /** A BUY is refused in full exactly when trading is blocked, no price exists, or not even one lot
      within the request and the volume cap is affordable; the whole request is then unfilled. */
  lemma BuyIsRefusedExactlyWhen(
    model: FeeModel, instruction: Instruction, facts: Facts, onDate: Date, cash: real,
    holding: int, sellable: int, participation: real, slippageBps: real)
    requires ValidFacts(facts) && instruction.lot > 0 && instruction.requested > 0 && instruction.side == BUY
             && Sane(model)
    requires Execute(model, instruction, facts, onDate, cash, holding, sellable, participation, slippageBps).Ok?
    ensures
      var out := Execute(model, instruction, facts, onDate, cash, holding, sellable, participation, slippageBps).value;
      var price := Price(BUY, facts, slippageBps);
      && (out.record.None? <==>
            || facts.suspended || facts.limitUpLocked || price.None?
            || NothingAffordable(Min(instruction.requested, Capacity(instruction, facts, holding, participation)),
                                 instruction.lot, price.value, cash,
                                 TotalFee(model, facts.asset, BUY, price.value, onDate)))
      && (out.record.None? ==> out.unfilled == instruction.requested && out.reason.Some?)
  {
    var price := Price(BUY, facts, slippageBps);
    if !facts.suspended && !facts.limitUpLocked && price.Some? {
      var capped := Min(instruction.requested, Capacity(instruction, facts, holding, participation));
      BuyPriceIsExact(facts, slippageBps);
      hide Capacity, Price, Gross, Calculate;
      CashQuantityFits(capped, instruction.lot, price.value, cash, model, facts.asset, onDate);
      CashQuantityIsLargest(capped, instruction.lot, price.value, cash, model, facts.asset, onDate);
      var q := CashQuantity(capped, instruction.lot, price.value, cash, model, facts.asset, onDate).value;
      if q > 0 {
        PositiveGrossIsCharged(q, price.value, model, facts.asset, onDate);
      }
    }
  }

  ghost predicate NothingAffordable(desired: int, lot: int, price: real, cash: real, fee: nat -> real)
    requires lot > 0
  {
    forall q: nat | 0 < q <= desired && q % lot == 0 :: Gross(q, price) + fee(q) > cash
  }

  lemma GrossIsPositive(quantity: int, price: real)
    requires quantity > 0 && price > 0.0
    ensures Gross(quantity, price) > 0.0
  {
    MulStrictlyMonotone(0.0, quantity as real, price);
  }

  lemma PositiveGrossIsCharged(quantity: nat, price: real, model: FeeModel, asset: Asset, onDate: Date)
    requires quantity > 0 && price > 0.0 && RatesOn(model, asset, onDate).Ok?
    ensures Calculate(model, asset, BUY, Gross(quantity, price), onDate).Ok?
    ensures TotalFee(model, asset, BUY, price, onDate)(quantity)
            == Calculate(model, asset, BUY, Gross(quantity, price), onDate).value.Total()
  {
    GrossIsPositive(quantity, price);
  }

  lemma CashQuantityFits(
    desired: int, lot: nat, price: real, cash: real, model: FeeModel, asset: Asset, onDate: Date)
    requires lot > 0 && price > 0.0 && CashQuantity(desired, lot, price, cash, model, asset, onDate).Ok?
    ensures var q := CashQuantity(desired, lot, price, cash, model, asset, onDate).value;
            && (q > 0 ==>
                 && q <= desired && q % lot == 0
                 && Calculate(model, asset, BUY, Gross(q, price), onDate).Ok?
                 && Gross(q, price) + Calculate(model, asset, BUY, Gross(q, price), onDate).value.Total() <= cash)
  {
    hide Gross;
    var q := CashQuantity(desired, lot, price, cash, model, asset, onDate).value;
    if q > 0 {
      var accepts := Affords(lot, price, cash, TotalFee(model, asset, BUY, price, onDate));
      var lots := Bisect(accepts, 0, MaxLots(desired, lot));
      assert lots > 0 && accepts(lots);
      LotMultiple(lots, lot, desired);
      PositiveGrossIsCharged(q, price, model, asset, onDate);
    }
  }

  lemma GrossGrows(m: nat, n: nat, price: real)
    requires m <= n && price >= 0.0
    ensures 0.0 <= Gross(m, price) <= Gross(n, price)
  {
    MulMonotone(0.0, m as real, price);
    MulMonotone(m as real, n as real, price);
  }

  lemma TotalFeeGrows(model: FeeModel, asset: Asset, side: Side, price: real, onDate: Date)
    requires Sane(model) && price >= 0.0 && RatesOn(model, asset, onDate).Ok?
    ensures FeeGrows(TotalFee(model, asset, side, price, onDate))
  {
    hide Gross, Split;
    forall m: nat, n: nat | m <= n
      ensures TotalFee(model, asset, side, price, onDate)(m) <= TotalFee(model, asset, side, price, onDate)(n)
    {
      GrossGrows(m, n, price);
      TotalIsMonotone(model, asset, side, Gross(m, price), Gross(n, price), onDate);
    }
  }

  lemma CashQuantityIsLargest(
    desired: int, lot: nat, price: real, cash: real, model: FeeModel, asset: Asset, onDate: Date)
    requires lot > 0 && price > 0.0 && Sane(model)
    requires CashQuantity(desired, lot, price, cash, model, asset, onDate).Ok?
    ensures var q := CashQuantity(desired, lot, price, cash, model, asset, onDate).value;
            forall more: nat :: q < more <= desired && more % lot == 0 ==>
              Gross(more, price) + TotalFee(model, asset, BUY, price, onDate)(more) > cash
  {
    hide Gross, TotalFee, FeeGrows;
    var q := CashQuantity(desired, lot, price, cash, model, asset, onDate).value;
    var fee := TotalFee(model, asset, BUY, price, onDate);
    var high := MaxLots(desired, lot);
    var accepts := Affords(lot, price, cash, fee);
    var lots := if high > 0 then Bisect(accepts, 0, high) else 0;
    assert q == LotShares(lots, lot);
    if high > 0 {
      TotalFeeGrows(model, asset, BUY, price, onDate);
      AffordsIsDownwardClosed(lot, price, cash, fee, high);
      BisectIsLargest(accepts, 0, high);
    }
    forall more: nat | q < more <= desired && more % lot == 0
      ensures Gross(more, price) + fee(more) > cash
    {
      var n := more / lot;
      LotCount(more, lot, lots, desired);
      assert LotShares(n, lot) == more && !accepts(n);
    }
  }

  /** What a SELL fill guarantees: never more than is held, sellable or traded that day. A partial
      sale carries a reason exactly when the volume cap, not the sellable quantity, cut it. */
  lemma SellFillIsBounded(
    model: FeeModel, instruction: Instruction, facts: Facts, onDate: Date, cash: real,
    holding: int, sellable: int, participation: real, slippageBps: real)
    requires ValidFacts(facts) && instruction.lot > 0 && instruction.requested > 0 && instruction.side == SELL
    requires participation >= 0.0 && 0 <= sellable <= holding
    requires Execute(model, instruction, facts, onDate, cash, holding, sellable, participation, slippageBps).Ok?
    ensures
      var out := Execute(model, instruction, facts, onDate, cash, holding, sellable, participation, slippageBps).value;
      && (out.record.Some? ==>
            var r := out.record.value;
            && r.date == onDate && r.security == instruction.security && r.side == SELL
            && 0 < r.filled <= instruction.requested && r.filled <= sellable
            && r.filled <= Capacity(instruction, facts, holding, participation)
            && r.filled as real <= facts.volume as real * participation
            && Some(r.price) == Price(SELL, facts, slippageBps) && r.gross == Gross(r.filled, r.price)
            && out.unfilled == instruction.requested - r.filled
            && (out.reason.Some? <==> Capacity(instruction, facts, holding, participation) < instruction.requested))
      && (out.record.None? && !facts.suspended && !facts.limitDownLocked && Price(SELL, facts, slippageBps).Some? ==>
            && out.reason == Some(SELLABLE_INSUFFICIENT)
            && (sellable == 0 || Capacity(instruction, facts, holding, participation) == 0))
  {
    CapacityIsBounded(instruction, facts, holding, participation);
  }

  /** When a SELL of whole lots, smaller than the holding, fills whole lots: exactly when the sellable shares
      do not cut it, or are themselves a whole number of lots. */
  lemma SellFillsWholeLotsExactlyWhen(
    model: FeeModel, instruction: Instruction, facts: Facts, onDate: Date, cash: real,
    holding: int, sellable: int, participation: real, slippageBps: real)
    requires ValidFacts(facts) && instruction.lot > 0 && instruction.requested > 0 && instruction.side == SELL
    requires participation >= 0.0 && 0 <= sellable <= holding
    requires instruction.requested % instruction.lot == 0 && instruction.requested != holding
    requires Execute(model, instruction, facts, onDate, cash, holding, sellable, participation, slippageBps).Ok?
    ensures
      var out := Execute(model, instruction, facts, onDate, cash, holding, sellable, participation, slippageBps).value;
      var capped := Min(instruction.requested, Capacity(instruction, facts, holding, participation));
      out.record.Some? ==>
        (out.record.value.filled % instruction.lot == 0
         <==> capped <= Min(holding, sellable) || sellable % instruction.lot == 0)
  {
    hide Price, Gross, Calculate, Capacity;
    CapacityIsBounded(instruction, facts, holding, participation);
    CapacityIsWholeLots(instruction, facts, holding, participation);
    var out := Execute(model, instruction, facts, onDate, cash, holding, sellable, participation, slippageBps).value;
    if out.record.Some? {
      var capped := Min(instruction.requested, Capacity(instruction, facts, holding, participation));
      assert capped % instruction.lot == 0;
      assert out.record.value.filled == Min(Min(capped, holding), sellable);
    }
  }

  lemma CapacityIsWholeLots(instruction: Instruction, facts: Facts, holding: int, participation: real)
    requires instruction.lot > 0 && facts.volume >= 0 && participation >= 0.0
    requires instruction.side == BUY || instruction.requested != holding
    ensures Capacity(instruction, facts, holding, participation) % instruction.lot == 0
  {
    hide TradedShare;
    var raw := TradedShare(facts.volume, participation);
    WholeLotsOf(raw / instruction.lot, instruction.lot);
  }

  lemma WholeLotsOf(lots: int, lot: int)
    requires lot > 0
    ensures lots * lot % lot == 0
  {
    ModuloOfMultiple(lots, lot);
  }

  lemma CapacityIsBounded(instruction: Instruction, facts: Facts, holding: int, participation: real)
    requires instruction.lot > 0 && facts.volume >= 0 && participation >= 0.0
    ensures 0 <= Capacity(instruction, facts, holding, participation)
    ensures Capacity(instruction, facts, holding, participation) as real <= facts.volume as real * participation
  {
    var traded := facts.volume as real * participation;
    assert traded >= 0.0;
    var raw := traded.Floor;
    LotFloorIsBelow(raw, instruction.lot);
  }

  lemma LotFloorIsBelow(raw: int, lot: int)
    requires lot > 0 && raw >= 0
    ensures 0 <= raw / lot * lot <= raw
    ensures raw / lot * lot % lot == 0
  {
    assert raw == raw / lot * lot + raw % lot;
    MultiplesAreApart(raw / lot, 0, lot);
    ModuloOfMultiple(raw / lot, lot);
  }
}
