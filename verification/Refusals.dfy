/** Which account refusals are left in a run: a sale whose fees exceed the cash and its own proceeds, and
    an account worth nothing. Everything else the account could refuse is unreachable. */
module Refusals {
  import opened Base
  import opened Numeric
  import opened FeeSchedule
  import opened Sizing
  import opened Execution
  import opened Accounts
  import opened StagedDrawdown
  import opened IntentExecutor
  import opened AllocationExecutor
  import opened Engine
  import opened Books
  import opened Shares
  import opened Solvency
  import Rebalance

  // ----- one order

  /** The simulator fills a sale that the cash and its proceeds cannot pay the fees of. */
  ghost predicate SaleUnpaid(
    m: Market, a: Account, day: Date, instruction: Instruction, row: Row, facts: Facts)
    requires facts.tick > 0.0 && instruction.lot > 0
  {
    && !(row.open.None? && !row.suspended)
    && var s := instruction.security;
       var out := Execute(m.fees, instruction, facts, day, a.cash, Get(a.positions, s), Get(a.sellable, s),
                          m.participation, m.slippage);
       && out.Ok? && out.value.record.Some?
       && var r := out.value.record.value;
          r.side == SELL && a.cash + r.gross < r.fees.Total()
  }

  lemma ChargesNeverBreak(model: FeeModel, asset: Asset, side: Side, gross: real, day: Date)
    requires gross >= 0.0
    ensures Calculate(model, asset, side, gross, day) != Err(BROKEN)
  {
    RatesNeverBreak(model, asset, day);
    hide RatesOn, Split;
  }

  lemma RatesNeverBreak(model: FeeModel, asset: Asset, day: Date)
    ensures RatesOn(model, asset, day) != Err(BROKEN)
  {
    LastEffectiveNeverBreaks(model.history, day);
  }

  lemma {:induction false} LastEffectiveNeverBreaks(history: seq<(Date, FeeRates)>, day: Date)
    ensures LastEffective(history, day) != Err(BROKEN)
  {
    if history != [] {
      LastEffectiveNeverBreaks(history[..|history| - 1], day);
    }
  }

  /** The simulator itself raises no account error. */
  lemma ExecutionNeverBreaks(
    model: FeeModel, instruction: Instruction, facts: Facts, day: Date, cash: real,
    holding: int, sellable: int, participation: real, slippage: real)
    requires ValidFacts(facts) && instruction.lot > 0 && instruction.requested > 0
    requires participation >= 0.0 && 0 <= sellable <= holding
    ensures Execute(model, instruction, facts, day, cash, holding, sellable, participation, slippage) != Err(BROKEN)
  {
    var price := Price(instruction.side, facts, slippage);
    RatesNeverBreak(model, facts.asset, day);
    CapacityIsBounded(instruction, facts, holding, participation);
    if price.Some? {
      FillPriceIsPositive(instruction.side, facts, slippage);
      forall quantity: int | quantity >= 0
        ensures Calculate(model, facts.asset, instruction.side, Gross(quantity, price.value), day) != Err(BROKEN)
      {
        MulMonotone(0.0, quantity as real, price.value);
        ChargesNeverBreak(model, facts.asset, instruction.side, Gross(quantity, price.value), day);
      }
    }
    hide Price, Capacity, Gross, Calculate, RatesOn;
  }

  lemma FillPriceIsPositive(side: Side, facts: Facts, slippage: real)
    requires ValidFacts(facts) && Price(side, facts, slippage).Some?
    ensures Price(side, facts, slippage).value > 0.0
  {
    if side == BUY {
      BuyPriceIsExact(facts, slippage);
    } else {
      SellPriceIsPositive(facts, slippage);
    }
  }

  /** One order on a covered account is refused by the account exactly when it is a sale that cannot pay its
      fees; otherwise the account stays covered. */
  lemma InstructionBreaksExactlyWhen(
    m: Market, a: Account, day: Date, instruction: Instruction, row: Row, facts: Facts)
    requires Covered(a) && m.participation >= 0.0
    requires ValidFacts(facts) && instruction.lot > 0 && instruction.requested > 0
    requires instruction.side == SELL ==> instruction.security in a.positions
    ensures ExecuteInstruction(m, a, day, instruction, row, facts) == Err(BROKEN)
            <==> SaleUnpaid(m, a, day, instruction, row, facts)
    ensures ExecuteInstruction(m, a, day, instruction, row, facts).Ok? ==>
              var b := ExecuteInstruction(m, a, day, instruction, row, facts).value.account;
              Covered(b) && a.positions.Keys <= b.positions.Keys
  {
    var s := instruction.security;
    CoveredIsSound(a);
    var out := Execute(m.fees, instruction, facts, day, a.cash, Get(a.positions, s), Get(a.sellable, s),
                       m.participation, m.slippage);
    ExecutionNeverBreaks(m.fees, instruction, facts, day, a.cash, Get(a.positions, s), Get(a.sellable, s),
                         m.participation, m.slippage);
    if out.Ok? && out.value.record.Some? {
      SimulatedFillIsAccepted(m, a, day, instruction, facts);
      TradeRefusalIsBroken(a, out.value.record.value, ReleaseDate(m, day, out.value.record.value.side));
    }
    if ExecuteInstruction(m, a, day, instruction, row, facts).Ok? {
      InstructionTradesOnce(m, a, day, instruction, row, facts);
      StepKeepsCovered(m, a, day, ExecuteInstruction(m, a, day, instruction, row, facts).value);
    }
    hide Execute, ApplyTrade, Covered, Sound, StepTrades;
  }

  lemma TradeRefusalIsBroken(a: Account, r: Record, release: Option<Date>)
    ensures Accounts.ApplyTrade(a, r, release).Ok? || Accounts.ApplyTrade(a, r, release) == Err(BROKEN)
  {
    hide Sound;
  }

  lemma StepKeepsCovered(m: Market, a: Account, day: Date, fills: Fills)
    requires Covered(a) && StepTrades(m, a, day, fills)
    ensures Covered(fills.account) && a.positions.Keys <= fills.account.positions.Keys
  {
    if fills.trades != [] {
      TradeKeepsCovered(a, fills.trades[0].0, ReleaseDate(m, day, fills.trades[0].0.side));
    }
  }

  lemma TradeKeepsCovered(a: Account, r: Record, release: Option<Date>)
    requires Covered(a) && Accounts.ApplyTrade(a, r, release).Ok?
    ensures var b := Accounts.ApplyTrade(a, r, release).value; Covered(b) && a.positions.Keys <= b.positions.Keys
  {
    var b := Accounts.ApplyTrade(a, r, release).value;
    forall s
      ensures 0 <= Get(b.sellable, s) <= Get(b.positions, s)
    {
      assert 0 <= Get(a.sellable, s) <= Get(a.positions, s);
      if s != r.security {
        assert Get(b.sellable, s) == Get(a.sellable, s) && Get(b.positions, s) == Get(a.positions, s);
      }
    }
  }

  // ----- intents

  ghost predicate IntentUnpaid(m: Market, a: Account, capital: real, day: Date, intent: Intent) {
    var placing := Prepare(m, Get(a.positions, intent.security), capital, day, intent);
    && placing.Ok? && placing.value.Some?
    && var p := placing.value.value;
       SaleUnpaid(m, a, day, p.instruction, p.row, p.facts)
  }

  /** Some sale in the sequence cannot pay its fees when its turn comes. */
  ghost predicate SomeIntentUnpaid(m: Market, a: Account, capital: real, day: Date, intents: seq<Intent>)
    decreases |intents|
  {
    intents != []
    && (|| IntentUnpaid(m, a, capital, day, intents[0])
        || (&& StepIntent(m, a, capital, day, intents[0]).Ok?
            && SomeIntentUnpaid(m, StepIntent(m, a, capital, day, intents[0]).value.account, capital, day,
                                intents[1..])))
  }

  lemma PreparationNeverBreaks(m: Market, current: int, capital: real, day: Date, intent: Intent)
    ensures Prepare(m, current, capital, day, intent) != Err(BROKEN)
  {
    hide Price;
  }

  lemma IntentBreaksExactlyWhen(m: Market, a: Account, capital: real, day: Date, intent: Intent)
    requires Covered(a) && m.participation >= 0.0
    ensures StepIntent(m, a, capital, day, intent) == Err(BROKEN) <==> IntentUnpaid(m, a, capital, day, intent)
    ensures StepIntent(m, a, capital, day, intent).Ok? ==>
              Covered(StepIntent(m, a, capital, day, intent).value.account)
  {
    hide Prepare, ExecuteInstruction, SaleUnpaid;
    var current := Get(a.positions, intent.security);
    PreparationNeverBreaks(m, current, capital, day, intent);
    var placing := Prepare(m, current, capital, day, intent);
    if placing.Ok? && placing.value.Some? {
      PreparedIsPlaceable(m, current, capital, day, intent);
      var p := placing.value.value;
      InstructionBreaksExactlyWhen(m, a, day, p.instruction, p.row, p.facts);
    }
  }

  lemma {:induction false} IntentsBreakExactlyWhen(
    m: Market, done: Fills, capital: real, day: Date, intents: seq<Intent>)
    requires Covered(done.account) && m.participation >= 0.0
    ensures RunIntents(m, done, capital, day, intents) == Err(BROKEN)
            <==> SomeIntentUnpaid(m, done.account, capital, day, intents)
    ensures RunIntents(m, done, capital, day, intents).Ok? ==>
              Covered(RunIntents(m, done, capital, day, intents).value.account)
    decreases |intents|
  {
    hide Covered, StepIntent, IntentUnpaid;
    if intents != [] {
      IntentBreaksExactlyWhen(m, done.account, capital, day, intents[0]);
      if StepIntent(m, done.account, capital, day, intents[0]).Ok? {
        var step := StepIntent(m, done.account, capital, day, intents[0]).value;
        IntentsBreakExactlyWhen(
          m, Fills(step.account, done.trades + step.trades, done.unfilled + step.unfilled), capital, day,
          intents[1..]);
      }
    }
  }

  // ----- planned orders

  ghost predicate OrderUnpaid(m: Market, a: Account, day: Date, o: Rebalance.Order) {
    && m.rows(day, o.id).Some?
    && var row := m.rows(day, o.id).value;
       && ExecutionFacts(row).Ok?
       && SaleUnpaid(m, a, day, InstructionOf(o, row), row, ExecutionFacts(row).value)
  }

  ghost predicate SomeOrderUnpaid(m: Market, a: Account, day: Date, orders: seq<Rebalance.Order>)
    decreases |orders|
  {
    orders != []
    && (|| OrderUnpaid(m, a, day, orders[0])
        || (&& StepOrder(m, a, day, orders[0]).Ok?
            && SomeOrderUnpaid(m, StepOrder(m, a, day, orders[0]).value.account, day, orders[1..])))
  }

  lemma FactsNeverBreak(row: Row)
    ensures ExecutionFacts(row) != Err(BROKEN)
  {
  }

  lemma OrderBreaksExactlyWhen(m: Market, a: Account, day: Date, o: Rebalance.Order)
    requires Covered(a) && m.participation >= 0.0 && Placeable(o, a)
    ensures StepOrder(m, a, day, o) == Err(BROKEN) <==> OrderUnpaid(m, a, day, o)
    ensures StepOrder(m, a, day, o).Ok? ==>
              var b := StepOrder(m, a, day, o).value.account;
              Covered(b) && a.positions.Keys <= b.positions.Keys
  {
    hide Execute, Price, Covered, ExecutionFacts;
    if m.rows(day, o.id).Some? {
      var row := m.rows(day, o.id).value;
      FactsNeverBreak(row);
      if ExecutionFacts(row).Ok? {
        InstructionBreaksExactlyWhen(m, a, day, InstructionOf(o, row), row, ExecutionFacts(row).value);
      }
    }
  }

  lemma {:induction false} OrdersBreakExactlyWhen(m: Market, done: Fills, day: Date, orders: seq<Rebalance.Order>)
    requires Covered(done.account) && m.participation >= 0.0
    requires forall i | 0 <= i < |orders| :: Placeable(orders[i], done.account)
    ensures RunOrders(m, done, day, orders) == Err(BROKEN) <==> SomeOrderUnpaid(m, done.account, day, orders)
    ensures RunOrders(m, done, day, orders).Ok? ==> Covered(RunOrders(m, done, day, orders).value.account)
    decreases |orders|
  {
    hide Covered, StepOrder, OrderUnpaid;
    if orders != [] {
      OrderBreaksExactlyWhen(m, done.account, day, orders[0]);
      if StepOrder(m, done.account, day, orders[0]).Ok? {
        var step := StepOrder(m, done.account, day, orders[0]).value;
        OrdersBreakExactlyWhen(
          m, Fills(step.account, done.trades + step.trades, done.unfilled + step.unfilled), day, orders[1..]);
      }
    }
  }

  lemma {:induction false} PurchasesAreAlwaysPaid(m: Market, a: Account, day: Date, orders: seq<Rebalance.Order>)
    requires forall i | 0 <= i < |orders| :: orders[i].side == BUY
    requires Covered(a) && m.participation >= 0.0 && forall i | 0 <= i < |orders| :: orders[i].requested > 0
    ensures !SomeOrderUnpaid(m, a, day, orders)
    decreases |orders|
  {
    hide Covered, StepOrder, OrderUnpaid;
    if orders != [] {
      OrderBreaksExactlyWhen(m, a, day, orders[0]);
      PurchaseIsPaid(m, a, day, orders[0]);
      if StepOrder(m, a, day, orders[0]).Ok? {
        PurchasesAreAlwaysPaid(m, StepOrder(m, a, day, orders[0]).value.account, day, orders[1..]);
      }
    }
  }

  lemma PurchaseIsPaid(m: Market, a: Account, day: Date, o: Rebalance.Order)
    requires o.side == BUY && o.requested > 0
    ensures !OrderUnpaid(m, a, day, o)
  {
    hide Price, CashQuantity, Calculate, Capacity;
  }

  // ----- the value a decision is measured on

  /** The account holds no cash, is owed none, and none of its shares has a price. */
  ghost predicate WorthNothing(m: Market, day: Date, a: Account, ids: seq<Id>) {
    a.cash == 0.0 && a.receivable == 0.0 && forall s | s in ids :: HoldingValue(m, day, a, s) == 0.0
  }

  lemma HoldingIsNonnegative(m: Market, day: Date, a: Account, s: Id)
    requires Covered(a)
    ensures HoldingValue(m, day, a, s) >= 0.0
  {
    assert Get(a.positions, s) >= 0;
    MulMonotone(0.0, Get(a.positions, s) as real, PriceOn(m, day, s));
  }

  lemma {:induction false} HoldingsAreNonnegative(m: Market, day: Date, a: Account, ids: seq<Id>)
    requires Covered(a)
    ensures HoldingsValue(m, day, a, ids) >= 0.0
    ensures HoldingsValue(m, day, a, ids) == 0.0 <==> forall s | s in ids :: HoldingValue(m, day, a, s) == 0.0
  {
    hide Covered, HoldingValue;
    if ids != [] {
      HoldingIsNonnegative(m, day, a, ids[0]);
      HoldingsAreNonnegative(m, day, a, ids[1..]);
      assert ids == [ids[0]] + ids[1..];
    }
  }

  lemma TurnoverBreaksExactlyWhen(m: Market, day: Date, before: Account, after: Account)
    requires Covered(before) && Covered(after)
    ensures var ids := InOrder(before.positions.Keys + after.positions.Keys);
            Turnover(m, day, before, after) == Err(BROKEN)
            <==> WorthNothing(m, day, before, ids) || WorthNothing(m, day, after, ids)
    ensures Turnover(m, day, before, after).Ok? || Turnover(m, day, before, after) == Err(BROKEN)
  {
    hide HoldingsValue, HoldingValue, Distance;
    var ids := InOrder(before.positions.Keys + after.positions.Keys);
    HoldingsAreNonnegative(m, day, before, ids);
    HoldingsAreNonnegative(m, day, after, ids);
  }

  // ----- whole decisions

  ghost predicate EitherWorthNothing(m: Market, day: Date, before: Account, after: Account) {
    var ids := InOrder(before.positions.Keys + after.positions.Keys);
    WorthNothing(m, day, before, ids) || WorthNothing(m, day, after, ids)
  }

  /** A decision the account refuses: everything is priced, and a sale cannot pay its fees, or all orders go
      through and the account is worth nothing before or after them. */
  ghost predicate DecisionBreaks(m: Market, a: Account, capital: real, day: Date, intents: seq<Intent>) {
    && AllPriced(m, day, a.positions.Keys + SecuritiesOf(intents))
    && (|| SomeIntentUnpaid(m, a, capital, day, Ordered(intents))
        || (&& RunIntents(m, Fills(a, [], []), capital, day, Ordered(intents)).Ok?
            && EitherWorthNothing(
                 m, day, a, RunIntents(m, Fills(a, [], []), capital, day, Ordered(intents)).value.account)))
  }

  lemma DecisionBreaksExactlyWhen(m: Market, a: Account, capital: real, day: Date, intents: seq<Intent>)
    requires Covered(a) && m.participation >= 0.0
    ensures ExecuteDecision(m, a, capital, day, intents) == Err(BROKEN)
            <==> DecisionBreaks(m, a, capital, day, intents)
  {
    hide RunIntents, Turnover, AllPriced, WorthNothing, Covered, SomeIntentUnpaid;
    var start := Fills(a, [], []);
    IntentsBreakExactlyWhen(m, start, capital, day, Ordered(intents));
    var fills := RunIntents(m, start, capital, day, Ordered(intents));
    if fills.Ok? {
      TurnoverBreaksExactlyWhen(m, day, a, fills.value.account);
    }
  }

  /** What the allocation executor plans against: the portfolio as it opened. */
  function MarketAtOpen(m: Market, a: Account, day: Date, targets: seq<Rebalance.Target>): Rebalance.Market {
    PlanningMarket(m, day, a.positions.Keys + TargetIds(targets), Worth(m, day, a, InOrder(a.positions.Keys)))
  }

  /** All sells, then all buys. */
  function OrdersPlaced(m: Market, a: Account, day: Date, targets: seq<Rebalance.Target>): Result<Fills> {
    var market := MarketAtOpen(m, a, day, targets);
    var sellPlan :- PlanFor(m, day, market, targets, a, 0.0);
    var sold :- RunOrders(m, Fills(a, [], []), day, sellPlan.sells);
    var buyPlan :- PlanFor(m, day, market, targets, sold.account, sold.account.cash);
    RunOrders(m, sold, day, buyPlan.buys)
  }

  /** An allocation the account refuses: a planned sale cannot pay its fees, or all orders go through and the
      account is worth nothing before or after them. */
  ghost predicate AllocationBreaks(m: Market, a: Account, day: Date, targets: seq<Rebalance.Target>) {
    && AllPriced(m, day, a.positions.Keys + TargetIds(targets))
    && var sellPlan := PlanFor(m, day, MarketAtOpen(m, a, day, targets), targets, a, 0.0);
       && sellPlan.Ok?
       && (|| SomeOrderUnpaid(m, a, day, sellPlan.value.sells)
           || (&& OrdersPlaced(m, a, day, targets).Ok?
               && EitherWorthNothing(m, day, a, OrdersPlaced(m, a, day, targets).value.account)))
  }

  lemma PlanningNeverBreaks(
    m: Market, day: Date, market: Rebalance.Market, targets: seq<Rebalance.Target>, a: Account, budget: real)
    ensures PlanFor(m, day, market, targets, a, budget) != Err(BROKEN)
  {
    Rebalance.SellsFailExactlyWhen(market, targets, PositionsOf(a));
    hide Rebalance.Sells, Rebalance.Ranked, Rebalance.Greedy, Rebalance.FeesFail, Rebalance.OrdersOf;
  }

  lemma PlannedPurchases(
    m: Market, day: Date, market: Rebalance.Market, targets: seq<Rebalance.Target>, a: Account, budget: real)
    requires PlanFor(m, day, market, targets, a, budget).Ok?
    ensures var buys := PlanFor(m, day, market, targets, a, budget).value.buys;
            forall i | 0 <= i < |buys| :: buys[i].side == BUY && buys[i].requested > 0
  {
    var ranked := Rebalance.Ranked(market, targets, PositionsOf(a), FeeEstimate(m, day));
    Rebalance.GreedyLength(ranked, budget);
    var buys := PlanFor(m, day, market, targets, a, budget).value.buys;
    hide Rebalance.Sells, Rebalance.Greedy, Rebalance.Ranked, Rebalance.OrdersOf;
    forall i | 0 <= i < |buys|
      ensures buys[i].side == BUY && buys[i].requested > 0
    {
      var _ := Rebalance.BuysComeFromCandidates(ranked, Rebalance.Greedy(ranked, budget), buys[i]);
    }
  }

  /** Placing the orders is refused by the account exactly when a planned sale cannot pay its fees. */
  lemma PlacingBreaksExactlyWhen(m: Market, a: Account, day: Date, targets: seq<Rebalance.Target>)
    requires Covered(a) && m.participation >= 0.0
    ensures var sellPlan := PlanFor(m, day, MarketAtOpen(m, a, day, targets), targets, a, 0.0);
            OrdersPlaced(m, a, day, targets) == Err(BROKEN)
            <==> sellPlan.Ok? && SomeOrderUnpaid(m, a, day, sellPlan.value.sells)
    ensures OrdersPlaced(m, a, day, targets).Ok? ==> Covered(OrdersPlaced(m, a, day, targets).value.account)
  {
    hide PlanFor, RunOrders, Covered, SomeOrderUnpaid, MarketAtOpen, Placeable, Sound;
    var market := MarketAtOpen(m, a, day, targets);
    PlanningNeverBreaks(m, day, market, targets, a, 0.0);
    var sellPlan := PlanFor(m, day, market, targets, a, 0.0);
    if sellPlan.Ok? {
      CoveredIsSound(a);
      PlannedOrdersArePlaceable(m, day, market, targets, a, 0.0);
      OrdersBreakExactlyWhen(m, Fills(a, [], []), day, sellPlan.value.sells);
      var sold := RunOrders(m, Fills(a, [], []), day, sellPlan.value.sells);
      if sold.Ok? {
        var b := sold.value.account;
        PlanningNeverBreaks(m, day, market, targets, b, b.cash);
        var buyPlan := PlanFor(m, day, market, targets, b, b.cash);
        if buyPlan.Ok? {
          CoveredIsSound(b);
          PlannedOrdersArePlaceable(m, day, market, targets, b, b.cash);
          PlannedPurchases(m, day, market, targets, b, b.cash);
          OrdersBreakExactlyWhen(m, sold.value, day, buyPlan.value.buys);
          PurchasesAreAlwaysPaid(m, b, day, buyPlan.value.buys);
        }
      }
    }
  }

  lemma AllocationIsPlacedThenMeasured(m: Market, a: Account, day: Date, targets: seq<Rebalance.Target>)
    requires AllPriced(m, day, a.positions.Keys + TargetIds(targets))
    ensures ExecuteAllocation(m, a, day, targets)
            == if OrdersPlaced(m, a, day, targets).Ok? then Concluded(m, day, a, OrdersPlaced(m, a, day, targets).value)
               else Err(OrdersPlaced(m, a, day, targets).code)
  {
    hide PlanFor, RunOrders, AllPriced, Turnover, Worth;
  }

  lemma AllocationBreaksExactlyWhen(m: Market, a: Account, day: Date, targets: seq<Rebalance.Target>)
    requires Covered(a) && m.participation >= 0.0
    ensures ExecuteAllocation(m, a, day, targets) == Err(BROKEN) <==> AllocationBreaks(m, a, day, targets)
  {
    PlacingBreaksExactlyWhen(m, a, day, targets);
    if AllPriced(m, day, a.positions.Keys + TargetIds(targets)) {
      AllocationIsPlacedThenMeasured(m, a, day, targets);
      if OrdersPlaced(m, a, day, targets).Ok? {
        TurnoverBreaksExactlyWhen(m, day, a, OrdersPlaced(m, a, day, targets).value.account);
      }
    }
    hide OrdersPlaced, PlanFor, RunOrders, AllPriced, Turnover, WorthNothing, Covered, SomeOrderUnpaid, MarketAtOpen;
  }

  // ----- whole days

  ghost predicate DueBreaks(m: Market, a: Account, capital: real, day: Date, due: Due) {
    match due
    case TradeIntents(intents) => DecisionBreaks(m, a, capital, day, intents)
    case TargetWeights(targets) => AllocationBreaks(m, a, day, targets)
  }

  /** The account refusals left in a morning of any run. Releases, ex dates, payments, listings and purchases
      raise nothing; the morning ends in the account's error if and only if a decision is due and one of its
      sales cannot pay its fees, or the account is worth nothing before or after it. */
  lemma MorningBreaksExactlyWhen(inputs: Inputs, days: seq<Date>, day: Date)
    requires SoundInputs(inputs) && Payable(inputs.actions) && Increasing(days + [day])
    requires WellTimed(inputs.actions, days + [day]) && RunDays(inputs, days).Ok?
    ensures var run := RunDays(inputs, days).value;
            && AtOpen(inputs, run, day).Ok?
            && (OpenDay(inputs, run, day) == Err(BROKEN)
                <==> && day in run.pending
                     && DueBreaks(inputs.market, AtOpen(inputs, run, day).value, run.strategy.capital, day,
                                  run.pending[day]))
  {
    hide RunDays, AtOpen, Solvent, Covered, ExecuteDecision, ExecuteAllocation, DecisionBreaks, AllocationBreaks;
    OpeningNeverBreaks(inputs, days, day);
    var run := RunDays(inputs, days).value;
    var a := AtOpen(inputs, run, day).value;
    OpenDayFromTheOpening(inputs, run, day);
    if day in run.pending {
      match run.pending[day] {
        case TradeIntents(intents) =>
          DecisionBreaksExactlyWhen(inputs.market, a, run.strategy.capital, day, intents);
        case TargetWeights(targets) => AllocationBreaksExactlyWhen(inputs.market, a, day, targets);
      }
    }
  }

  lemma OpenDayFromTheOpening(inputs: Inputs, run: Run, day: Date)
    requires AtOpen(inputs, run, day).Ok?
    ensures day !in run.pending ==> OpenDay(inputs, run, day).Ok?
    ensures day in run.pending ==>
              var due := ExecuteDue(inputs.market, AtOpen(inputs, run, day).value, run.strategy.capital, day,
                                    run.pending[day]);
              && (OpenDay(inputs, run, day).Ok? <==> due.Ok?)
              && (due.Err? ==> OpenDay(inputs, run, day) == Err(due.code))
  {
    hide ExecuteDue, ExDates, PayAndList;
  }

  /** And in a close of any run: if and only if the day's market values say so themselves, or the net asset value
      they give is not positive. */
  lemma CloseBreaksExactlyWhen(inputs: Inputs, days: seq<Date>, day: Date)
    requires SoundInputs(inputs) && Payable(inputs.actions) && Increasing(days + [day])
    requires WellTimed(inputs.actions, days + [day]) && RunDays(inputs, days).Ok?
    requires OpenDay(inputs, RunDays(inputs, days).value, day).Ok?
    ensures var run := RunDays(inputs, days).value;
            var morning := OpenDay(inputs, run, day).value;
            var a := morning.fills.account;
            var values := inputs.marketValue(day, a.positions);
            CloseDay(inputs, run, morning, day) == Err(BROKEN)
            <==> || values == Err(BROKEN)
                 || (values.Ok? && a.cash + a.receivable + values.value.0 + values.value.1 <= 0.0)
  {
    hide RunDays, OpenDay, Solvent, RecordAll, Contribute, FiguresOf;
    var run := RunDays(inputs, days).value;
    var morning := OpenDay(inputs, run, day).value;
    var a := morning.fills.account;
    var values := inputs.marketValue(day, a.positions);
    if values.Ok? {
      RecordingNeverBreaks(inputs, days, day, a.cash + a.receivable + values.value.0 + values.value.1);
      ContributionsNeverBreak(run.daily, a, values.value, morning);
    }
  }

  lemma ContributionsNeverBreak(daily: seq<DayRecord>, a: Account, values: (real, real), morning: Morning)
    ensures var nav := a.cash + a.receivable + values.0 + values.1;
            DayContribution(daily, nav, values.0, values.1, a.cash + a.receivable, morning.declared,
                            morning.fills.trades) != Err(BROKEN)
  {
  }
}
