/** What a decision's intents order and what comes of them: the price and lots of each order, sells before buys, the
    shortfalls that are reported, and what the turnover measures. */
module Orders {
  import opened Base
  import opened Numeric
  import opened FeeSchedule
  import opened Sizing
  import opened Execution
  import opened Accounts
  import opened StagedDrawdown
  import opened IntentExecutor

  // ----- the day's figures

  /** The day's own figure when there is one, and the other otherwise. */
  predicate Stands(x: real, own: Option<real>, other: Option<real>) {
    x > 0.0 && (if own.Some? then own else other) == Some(x)
  }

  predicate Lacks(own: Option<real>, other: Option<real>) {
    var x := if own.Some? then own else other;
    x.None? || x.value <= 0.0
  }

  /** A suspended day's limits fall back on the close, and a trading day's on its range. */
  function LimitOf(row: Row, extreme: Option<real>): Option<real> {
    if row.suspended then row.valuationClose else extreme
  }

  lemma FactsMean(row: Row)
    ensures ExecutionFacts(row).Err? <==>
            || Lacks(row.open, row.valuationClose) || Lacks(row.high, row.valuationClose)
            || Lacks(row.low, row.valuationClose)
            || Lacks(row.upLimit, LimitOf(row, row.high)) || Lacks(row.downLimit, LimitOf(row, row.low))
            || Lacks(row.tick, None)
    ensures ExecutionFacts(row).Ok? ==>
              var facts := ExecutionFacts(row).value;
              && Stands(facts.open, row.open, row.valuationClose)
              && Stands(facts.high, row.high, row.valuationClose)
              && Stands(facts.low, row.low, row.valuationClose)
              && Stands(facts.upLimit, row.upLimit, LimitOf(row, row.high))
              && Stands(facts.downLimit, row.downLimit, LimitOf(row, row.low))
              && Stands(facts.tick, row.tick, None)
              && facts.asset == row.asset && facts.volume == row.volume && facts.suspended == row.suspended
              && facts.limitUpLocked == row.limitUpLocked && facts.limitDownLocked == row.limitDownLocked
  {
  }

  lemma ReferenceMeans(row: Row)
    ensures ReferencePrice(row).Err? <==> Lacks(row.open, row.valuationClose)
    ensures ReferencePrice(row).Ok? ==> Stands(ReferencePrice(row).value, row.open, row.valuationClose)
  {
  }

  // ----- the size of an order

  /** What an intent asks to be traded; nothing is an order of none. */
  function Requested(sized: Option<Instruction>): int {
    if sized.None? then 0 else sized.value.requested
  }

  /** A positive order for the intent's security and side, in lots of that size. */
  predicate IsOrderOf(sized: Option<Instruction>, intent: Intent, lot: Positive) {
    sized.Some? ==>
      && sized.value.security == intent.security && sized.value.side == intent.side
      && sized.value.lot == lot && sized.value.requested > 0
  }

  /** The most whole lots within the amount at that price; nothing when the amount is negative. */
  predicate MostLots(quantity: int, lot: Positive, price: real, amount: real) {
    && quantity >= 0 && quantity % lot == 0
    && (amount >= 0.0 ==> Gross(quantity, price) <= amount)
    && amount < Gross(quantity + lot, price)
    && (amount < 0.0 ==> quantity == 0)
  }

  lemma LotsOfFloor(amount: real, price: real, lot: Positive)
    requires price > 0.0
    ensures MostLots(Max(0, WholeLots(SharesFor(amount, price), lot)), lot, price, amount)
  {
    var raw := SharesFor(amount, price);
    var q := WholeLots(raw, lot);
    TickFloor(amount, price);
    assert raw == q + raw % lot;
    ModuloOfMultiple(raw / lot, lot);
    if raw >= 0 {
      QuotientNonnegative(raw, lot);
      GrossIsOrdered(0, raw, price);
      GrossIsOrdered(q, raw, price);
      GrossIsOrdered(raw + 1, q + lot, price);
    } else {
      GrossIsOrdered(raw + 1, 0, price);
      GrossIsOrdered(0, lot, price);
      QuotientNegative(raw, lot);
      if amount >= 0.0 {
        QuotientIsMonotone(0.0, amount, price);
      }
      assert Gross(0, price) == 0.0;
      MulStrictlyMonotone(0.0, lot as real, price);
    }
  }

  lemma QuotientNonnegative(raw: int, lot: Positive)
    requires raw >= 0
    ensures raw / lot * lot >= 0
  {
  }

  lemma QuotientNegative(raw: int, lot: Positive)
    requires raw < 0
    ensures raw / lot * lot < 0
  {
    assert raw / lot < 0;
  }

  lemma GrossIsOrdered(m: int, n: int, price: real)
    requires m <= n && price > 0.0
    ensures Gross(m, price) <= Gross(n, price)
    ensures Gross(m, price) == Ticks(m, price) && Gross(n, price) == Ticks(n, price)
  {
    MulMonotone(m as real, n as real, price);
  }

  /** A fixed amount, or a part of the initial capital. */
  function NotionalOf(sizing: StagedDrawdown.Sizing, capital: real): real {
    if sizing.FixedNotional? then sizing.amount
    else if sizing.InitialCapitalFraction? then capital * sizing.fraction
    else 0.0
  }

  /** A BUY asks for the most whole lots its notional pays for, at the price the order would trade at, or at the
      reference price when it has none. */
  lemma BuySizeMeans(
    intent: Intent, current: int, capital: real, row: Row, reference: real, facts: Facts, slippage: real)
    requires ValidFacts(facts) && reference > 0.0 && intent.side == BUY
    ensures var sized := Size(intent, current, capital, row, reference, facts, slippage);
            && (sized.Err? <==> !intent.sizing.FixedNotional? && !intent.sizing.InitialCapitalFraction?)
            && (sized.Ok? ==>
                  && IsOrderOf(sized.value, intent, row.buyLot)
                  && MostLots(Requested(sized.value), row.buyLot,
                              if Price(BUY, facts, slippage).Some? then Price(BUY, facts, slippage).value
                              else reference,
                              NotionalOf(intent.sizing, capital)))
  {
    hide Price, MostLots, WholeLots, SharesFor, BudgetPrice, BuyNotional, NotionalOf;
    var price := BudgetPrice(facts, reference, slippage);
    BudgetIsThePrice(facts, reference, slippage);
    NotionalMeans(intent.sizing, capital);
    if BuyNotional(intent.sizing, capital).Ok? {
      LotsOfFloor(BuyNotional(intent.sizing, capital).value, price, row.buyLot);
    }
  }

  lemma BudgetIsThePrice(facts: Facts, reference: real, slippage: real)
    requires ValidFacts(facts) && reference > 0.0
    ensures var price := BudgetPrice(facts, reference, slippage);
            price > 0.0
            && price == if Price(BUY, facts, slippage).Some? then Price(BUY, facts, slippage).value else reference
  {
    BuyPriceIsExact(facts, slippage);
    hide Price;
  }

  lemma NotionalMeans(sizing: StagedDrawdown.Sizing, capital: real)
    ensures BuyNotional(sizing, capital).Err? <==> !sizing.FixedNotional? && !sizing.InitialCapitalFraction?
    ensures BuyNotional(sizing, capital).Ok? ==>
              BuyNotional(sizing, capital).value == NotionalOf(sizing, capital)
  {
  }

  /** Some of a holding, in whole lots. */
  predicate LotsWithin(quantity: int, lot: Positive, limit: real) {
    && quantity >= 0 && quantity % lot == 0
    && (limit >= 0.0 ==> quantity as real <= limit) && limit < (quantity + lot) as real
    && (limit < 0.0 ==> quantity == 0)
  }

  lemma LotsWithinFloor(limit: real, lot: Positive)
    ensures LotsWithin(Max(0, WholeLots(limit.Floor, lot)), lot, limit)
  {
    var raw := limit.Floor;
    var q := WholeLots(raw, lot);
    assert raw == q + raw % lot;
    ModuloOfMultiple(raw / lot, lot);
    if raw >= 0 {
      QuotientNonnegative(raw, lot);
    } else {
      QuotientNegative(raw, lot);
    }
  }

  /** What a SELL asks for: all of the holding, odd lots included, when that is what its sizing comes to, and otherwise
      the most whole lots within it. */
  predicate SellsAsSized(sizing: StagedDrawdown.Sizing, quantity: int, current: int, lot: Positive, reference: real)
    requires reference > 0.0
  {
    match sizing
    case FullPosition => quantity == current
    case FixedQuantity(wanted) =>
      if wanted >= current then quantity == current else LotsWithin(quantity, lot, wanted as real)
    case CurrentPositionFraction(share) =>
      if current as real <= Part(current, share) < (current + 1) as real then quantity == current
      else LotsWithin(quantity, lot, Part(current, share))
    case FixedNotional(amount) =>
      if Gross(current, reference) <= amount then quantity == current
      else MostLots(quantity, lot, reference, amount)
    case InitialCapitalFraction(_) => false
  }

  function Part(current: int, share: real): real {
    current as real * share
  }

  lemma SellSizeMeans(
    intent: Intent, current: nat, capital: real, row: Row, reference: real, facts: Facts, slippage: real)
    requires ValidFacts(facts) && reference > 0.0 && intent.side == SELL
    ensures var sized := Size(intent, current, capital, row, reference, facts, slippage);
            && (sized.Err? <==> intent.sizing.InitialCapitalFraction?)
            && (sized.Ok? ==>
                  && IsOrderOf(sized.value, intent, row.sellLot)
                  && SellsAsSized(intent.sizing, Requested(sized.value), current, row.sellLot, reference))
  {
    SellQuantityMeans(intent.sizing, current, reference, row.sellLot);
    hide SellsAsSized, SellQuantity, WholeLots;
  }

  lemma SellQuantityMeans(sizing: StagedDrawdown.Sizing, current: nat, reference: real, lot: Positive)
    requires reference > 0.0
    ensures SellQuantity(sizing, current, reference).Err? <==> sizing.InitialCapitalFraction?
    ensures SellQuantity(sizing, current, reference).Ok? ==>
              var (quantity, all) := SellQuantity(sizing, current, reference).value;
              SellsAsSized(sizing, Max(0, if all then quantity else WholeLots(quantity, lot)), current, lot, reference)
  {
    match sizing {
      case FullPosition =>
      case FixedQuantity(wanted) =>
        LotsWithinFloor(wanted as real, lot);
        hide WholeLots;
      case CurrentPositionFraction(share) =>
        LotsWithinFloor(Part(current, share), lot);
        PartIsPart(current, share);
        hide WholeLots, PartOf, Part, LotsWithin;
      case FixedNotional(amount) =>
        NotionalShares(current, amount, reference, lot);
        hide WholeLots, SharesFor, MostLots, Gross;
      case InitialCapitalFraction(_) =>
    }
  }

  lemma PartIsPart(current: int, share: real)
    ensures PartOf(current, share) == Part(current, share).Floor
    ensures PartOf(current, share) == current <==> current as real <= Part(current, share) < (current + 1) as real
  {
    assert current as real * share == Part(current, share);
  }

  lemma NotionalShares(current: nat, amount: real, reference: real, lot: Positive)
    requires reference > 0.0
    ensures SharesFor(amount, reference) >= current <==> Gross(current, reference) <= amount
    ensures MostLots(Max(0, WholeLots(SharesFor(amount, reference), lot)), lot, reference, amount)
  {
    var raw := SharesFor(amount, reference);
    LotsOfFloor(amount, reference, lot);
    TickFloor(amount, reference);
    if raw >= current {
      GrossIsOrdered(current, raw, reference);
    } else {
      GrossIsOrdered(raw + 1, current, reference);
    }
  }
  // ----- the order of the orders

  /** Sells come first, and within a side the smaller priority, then security, then intent number. */
  predicate Precedes(x: Intent, y: Intent) {
    || (x.side == SELL && y.side == BUY)
    || (&& x.side == y.side
        && (|| x.priority < y.priority
            || (x.priority == y.priority
                && (x.security < y.security || (x.security == y.security && x.id <= y.id)))))
  }

  ghost predicate InTurn(intents: seq<Intent>) {
    forall i, j | 0 <= i < j < |intents| :: Precedes(intents[i], intents[j])
  }

  lemma RunsBeforePrecedes(x: Intent, y: Intent)
    ensures if RunsBefore(x, y) then Precedes(x, y) else Precedes(y, x)
  {
  }

  lemma PrecedesOnward(x: Intent, y: Intent, z: Intent)
    requires Precedes(x, y) && (y == z || Precedes(y, z))
    ensures Precedes(x, z)
  {
  }

  lemma {:induction false} InsertedInTurn(x: Intent, intents: seq<Intent>)
    requires InTurn(intents)
    ensures InTurn(Insert(x, intents)) && multiset(Insert(x, intents)) == multiset{x} + multiset(intents)
  {
    hide Precedes, RunsBefore;
    if intents == [] || RunsBefore(x, intents[0]) {
      assert multiset([x] + intents) == multiset{x} + multiset(intents);
      if intents != [] {
        RunsBeforePrecedes(x, intents[0]);
        forall j | 0 <= j < |intents|
          ensures Precedes(x, intents[j])
        {
          assert j > 0 ==> Precedes(intents[0], intents[j]);
          PrecedesOnward(x, intents[0], intents[j]);
        }
      }
    } else {
      RunsBeforePrecedes(x, intents[0]);
      InsertedInTurn(x, intents[1..]);
      var rest := Insert(x, intents[1..]);
      assert intents == [intents[0]] + intents[1..];
      forall j | 0 <= j < |rest|
        ensures Precedes(intents[0], rest[j])
      {
        assert rest[j] in multiset(rest);
        assert rest[j] == x || rest[j] in intents[1..];
      }
    }
  }

  /** The executor takes every intent once, in turn. */
  lemma {:induction false} OrderedInTurn(intents: seq<Intent>)
    ensures InTurn(Ordered(intents)) && multiset(Ordered(intents)) == multiset(intents)
  {
    if intents != [] {
      OrderedInTurn(intents[1..]);
      InsertedInTurn(intents[0], Ordered(intents[1..]));
      assert intents == [intents[0]] + intents[1..];
    }
  }

  // ----- one order

  /** What came of one order: at most one fill of its own security and side, and what is missing. */
  ghost predicate Answers(instruction: Instruction, before: Account, fills: Fills) {
    && |fills.trades| <= 1
    && (fills.trades == [] ==> fills.account == before)
    && (fills.trades != [] ==>
          var r := fills.trades[0].0;
          r.security == instruction.security && r.side == instruction.side && r.requested == instruction.requested)
  }

  function FilledOf(fills: Fills): int {
    if fills.trades == [] then 0 else fills.trades[0].0.filled
  }

  /** Something is missing and the report says how much. */
  predicate Confesses(instruction: Instruction, fills: Fills) {
    && |fills.unfilled| == 1
    && var u := fills.unfilled[0];
       && u.security == instruction.security && u.side == instruction.side && u.requested == instruction.requested
       && u.filled == FilledOf(fills) && u.unfilled == instruction.requested - FilledOf(fills)
  }

  /** An order without a fill confesses its whole quantity. A partly filled one confesses what is missing if it buys, or
      if the volume cut it; a sale cut only by the sellable shares is not reported. */
  lemma ShortfallIsReportedExactlyWhen(
    m: Market, a: Account, day: Date, instruction: Instruction, row: Row, facts: Facts)
    requires facts.tick > 0.0 && instruction.lot > 0 && instruction.requested > 0
    requires ExecuteInstruction(m, a, day, instruction, row, facts).Ok?
    ensures var fills := ExecuteInstruction(m, a, day, instruction, row, facts).value;
            && Answers(instruction, a, fills)
            && (FilledOf(fills) == 0 ==> Confesses(instruction, fills))
            && (FilledOf(fills) >= instruction.requested ==> fills.unfilled == [])
            && (0 < FilledOf(fills) < instruction.requested ==>
                  if instruction.side == BUY || CutByVolume(m, a, instruction, facts) then Confesses(instruction, fills)
                  else fills.unfilled == [])
  {
    hide Price, Gross, Calculate, Capacity, CashQuantity, Accounts.ApplyTrade;
  }

  /** A purchase waits for the next trading day, or for a week where the calendar ends; a sale for nothing. */
  lemma ReleaseMeans(m: Market, day: Date, side: Side)
    ensures var release := ReleaseDate(m, day, side);
            && (release.None? <==> side == SELL)
            && (side == BUY ==> m.nextDay(day) == release || (m.nextDay(day).None? && release.value - day == 7))
  {
  }

  predicate CutByVolume(m: Market, a: Account, instruction: Instruction, facts: Facts)
    requires instruction.lot > 0
  {
    Capacity(instruction, facts, Get(a.positions, instruction.security), m.participation) < instruction.requested
  }

  // ----- sells before buys

  /** Once a purchase is made, no sale follows. */
  ghost predicate SalesFirst(trades: seq<(Record, Asset)>) {
    forall i, j | 0 <= i < j < |trades| :: trades[i].0.side == BUY ==> trades[j].0.side == BUY
  }

  ghost predicate NoneBuys(trades: seq<(Record, Asset)>) {
    forall i | 0 <= i < |trades| :: trades[i].0.side == SELL
  }

  lemma StepKeepsTheSide(m: Market, a: Account, capital: real, day: Date, intent: Intent)
    requires StepIntent(m, a, capital, day, intent).Ok?
    ensures var fills := StepIntent(m, a, capital, day, intent).value;
            |fills.trades| <= 1 && (fills.trades != [] ==> fills.trades[0].0.side == intent.side)
  {
    hide Price, Gross, Calculate, Capacity, CashQuantity, BudgetPrice, SellQuantity, ExecutionFacts;
    hide Accounts.ApplyTrade;
  }

  lemma {:induction false} RunSellsFirst(m: Market, done: Fills, capital: real, day: Date, intents: seq<Intent>)
    requires RunIntents(m, done, capital, day, intents).Ok? && InTurn(intents) && SalesFirst(done.trades)
    requires NoneBuys(done.trades) || forall i | 0 <= i < |intents| :: intents[i].side == BUY
    ensures SalesFirst(RunIntents(m, done, capital, day, intents).value.trades)
    decreases |intents|
  {
    hide StepIntent;
    if intents != [] {
      StepKeepsTheSide(m, done.account, capital, day, intents[0]);
      var step := StepIntent(m, done.account, capital, day, intents[0]).value;
      assert intents[0].side == BUY ==> forall i | 0 <= i < |intents| :: intents[i].side == BUY by {
        assert forall i | 0 < i < |intents| :: Precedes(intents[0], intents[i]);
      }
      RunSellsFirst(
        m, Fills(step.account, done.trades + step.trades, done.unfilled + step.unfilled), capital, day, intents[1..]);
    }
  }

  /** A decision's sales all come before its purchases, so their proceeds can pay for them. */
  lemma SalesFundPurchases(m: Market, a: Account, capital: real, day: Date, intents: seq<Intent>)
    requires ExecuteDecision(m, a, capital, day, intents).Ok?
    ensures SalesFirst(ExecuteDecision(m, a, capital, day, intents).value.fills.trades)
  {
    hide RunIntents, Turnover;
    OrderedInTurn(intents);
    RunSellsFirst(m, Fills(a, [], []), capital, day, Ordered(intents));
  }

  // ----- turnover

  /** The part of the total that one holding gained. */
  function Gained(before: real, beforeTotal: PositiveValue, after: real, afterTotal: PositiveValue): real {
    var gain := after / afterTotal - before / beforeTotal;
    if gain > 0.0 then gain else 0.0
  }

  /** Everything held and the cash, by the day's reference prices. */
  function ValueOf(m: Market, day: Date, a: Account, ids: seq<Id>): real {
    if ids == [] then a.cash + a.receivable
    else Get(a.positions, ids[0]) as real * PriceOn(m, day, ids[0]) + ValueOf(m, day, a, ids[1..])
  }

  function GainedBy(m: Market, day: Date, before: Account, after: Account, ids: seq<Id>, was: PositiveValue,
      now: PositiveValue): real {
    if ids == [] then Gained(before.cash + before.receivable, was, after.cash + after.receivable, now)
    else
      Gained(HoldingValue(m, day, before, ids[0]), was, HoldingValue(m, day, after, ids[0]), now)
      + GainedBy(m, day, before, after, ids[1..], was, now)
  }

  lemma {:induction false} ValueIsWorth(m: Market, day: Date, a: Account, ids: seq<Id>)
    ensures ValueOf(m, day, a, ids) == IntentExecutor.Worth(m, day, a, ids)
  {
    if ids != [] {
      ValueIsWorth(m, day, a, ids[1..]);
    }
  }

  lemma MovedIsTwiceGained(before: real, was: PositiveValue, after: real, now: PositiveValue)
    ensures Moved(before, was, after, now) == 2.0 * Gained(before, was, after, now) - (after / now - before / was)
  {
  }

  lemma {:induction false} DistanceIsTwiceGained(
    m: Market, day: Date, before: Account, after: Account, ids: seq<Id>, was: PositiveValue, now: PositiveValue)
    ensures Distance(m, day, before, after, ids, was, now)
            == 2.0 * GainedBy(m, day, before, after, ids, was, now)
               - (ValueOf(m, day, after, ids) / now - ValueOf(m, day, before, ids) / was)
  {
    hide Moved, Gained, PriceOn;
    if ids == [] {
      MovedIsTwiceGained(before.cash + before.receivable, was, after.cash + after.receivable, now);
    } else {
      var s := ids[0];
      DistanceIsTwiceGained(m, day, before, after, ids[1..], was, now);
      MovedIsTwiceGained(HoldingValue(m, day, before, s), was, HoldingValue(m, day, after, s), now);
      QuotientOfSum(HoldingValue(m, day, before, s), ValueOf(m, day, before, ids[1..]), was);
      QuotientOfSum(HoldingValue(m, day, after, s), ValueOf(m, day, after, ids[1..]), now);
      DistanceOfOneMore(m, day, before, after, ids, was, now);
      hide HoldingValue, Distance;
    }
  }

  lemma DistanceOfOneMore(
    m: Market, day: Date, before: Account, after: Account, ids: seq<Id>, was: PositiveValue, now: PositiveValue)
    requires ids != []
    ensures Distance(m, day, before, after, ids, was, now)
            == Moved(HoldingValue(m, day, before, ids[0]), was, HoldingValue(m, day, after, ids[0]), now)
               + Distance(m, day, before, after, ids[1..], was, now)
  {
    hide Moved, HoldingValue;
  }

  /** The turnover is the part of the portfolio that changed hands: what some parts gained of the total, which is what
      the others lost; and it is measured on the value before the trades. */
  lemma TurnoverIsWhatMoved(m: Market, day: Date, before: Account, after: Account)
    requires Turnover(m, day, before, after).Ok?
    ensures var ids := InOrder(before.positions.Keys + after.positions.Keys);
            var was, now := ValueOf(m, day, before, ids), ValueOf(m, day, after, ids);
            && was > 0.0 && now > 0.0
            && Turnover(m, day, before, after)
               == Ok((GainedBy(m, day, before, after, ids, was as PositiveValue, now as PositiveValue), was))
  {
    hide ValueOf, IntentExecutor.Worth, Distance, GainedBy, InOrder;
    var ids := InOrder(before.positions.Keys + after.positions.Keys);
    ValueIsWorth(m, day, before, ids);
    ValueIsWorth(m, day, after, ids);
    DistanceIsTwiceGained(m, day, before, after, ids, ValueOf(m, day, before, ids), ValueOf(m, day, after, ids));
  }
}
