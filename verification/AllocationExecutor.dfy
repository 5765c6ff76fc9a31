/** Executes an allocation decision: plan and place the sells, then plan the buys again with the cash
    there is, and place them. */
module AllocationExecutor {
  import opened Base
  import opened Sequences
  import opened FeeSchedule
  import opened Execution
  import opened Accounts
  import opened SimulatedAccounts
  import opened IntentExecutor
  import Rebalance

  function TargetIds(targets: seq<Rebalance.Target>): set<Id> {
    set t | t in targets :: t.id
  }

  /** What the planner is told: a price and lot rule for every security held or targeted. */
  function PlanningMarket(m: Market, day: Date, ids: set<Id>, value: real): Rebalance.Market {
    Rebalance.Market(
      map s | s in ids :: PriceOn(m, day, s),
      map s | s in ids && m.rows(day, s).Some? ::
        Rebalance.LotRule(m.rows(day, s).value.buyLot, m.rows(day, s).value.sellLot),
      value)
  }

  function AssetOn(m: Market, day: Date, s: Id): Asset {
    if m.rows(day, s).Some? then m.rows(day, s).value.asset else A_SHARE
  }

  /** The fee estimate the planner is given. */
  function FeeEstimate(m: Market, day: Date): Rebalance.Estimate {
    Rebalance.Estimate(
      (s: Id, quantity: nat) => TotalFee(m.fees, AssetOn(m, day, s), BUY, PriceOn(m, day, s), day)(quantity),
      (s: Id) => RatesOn(m.fees, AssetOn(m, day, s), day).Ok?)
  }

  function Book(a: Account, ids: seq<Id>): (r: seq<Rebalance.Position>)
    ensures forall p | p in r ::
              p.id in ids && p.quantity == Get(a.positions, p.id) && p.sellable == Get(a.sellable, p.id)
  {
    if ids == [] then []
    else [Rebalance.Position(ids[0], Get(a.positions, ids[0]), Get(a.sellable, ids[0]))] + Book(a, ids[1..])
  }

  function PositionsOf(a: Account): seq<Rebalance.Position> {
    Book(a, InOrder(a.positions.Keys))
  }

  function InstructionOf(o: Rebalance.Order, row: Row): Instruction {
    Instruction(o.id, o.side, o.requested, if o.side == SELL then row.sellLot else row.buyLot)
  }

  function StepOrder(m: Market, a: Account, day: Date, o: Rebalance.Order): Result<Fills> {
    var found := m.rows(day, o.id);
    if found.None? then Err(MISSING)
    else
      var row := found.value;
      if row.open.None? && !row.suspended then
        Ok(Fills(a, [], [UnfilledRecord(o.id, o.side, o.requested, 0, o.requested, NO_EXECUTION_PRICE)]))
      else
        var facts :- ExecutionFacts(row);
        ExecuteInstruction(m, a, day, InstructionOf(o, row), row, facts)
  }

  function RunOrders(m: Market, done: Fills, day: Date, orders: seq<Rebalance.Order>): Result<Fills>
    decreases |orders|
  {
    if orders == [] then Ok(done)
    else
      var step :- StepOrder(m, done.account, day, orders[0]);
      RunOrders(m, Fills(step.account, done.trades + step.trades, done.unfilled + step.unfilled), day, orders[1..])
  }

  /** Both plans value the portfolio as it opened. */
  function PlanFor(
    m: Market, day: Date, market: Rebalance.Market, targets: seq<Rebalance.Target>, a: Account, budget: real)
    : Result<Rebalance.Plan>
  {
    Rebalance.PlanOf(market, targets, PositionsOf(a), budget, FeeEstimate(m, day))
  }

  function ExecuteAllocation(m: Market, a: Account, day: Date, targets: seq<Rebalance.Target>): Result<Executed> {
    var ids := a.positions.Keys + TargetIds(targets);
    if !AllPriced(m, day, ids) then Err(MISSING)
    else
      var market := PlanningMarket(m, day, ids, Worth(m, day, a, InOrder(a.positions.Keys)));
      var sellPlan :- PlanFor(m, day, market, targets, a, 0.0);
      var sold :- RunOrders(m, Fills(a, [], []), day, sellPlan.sells);
      var buyPlan :- PlanFor(m, day, market, targets, sold.account, sold.account.cash);
      var bought :- RunOrders(m, sold, day, buyPlan.buys);
      Concluded(m, day, a, bought)
  }

  // ----- the loops over the account object

  method RunOrdersOn(
    account: SimulatedAccount, m: Market, day: Date, orders: seq<Rebalance.Order>, ghost done: Fills,
    trades0: seq<(Record, Asset)>, unfilled0: seq<UnfilledRecord>)
    returns (r: Result<(seq<(Record, Asset)>, seq<UnfilledRecord>)>)
    requires done == Fills(account.State(), trades0, unfilled0)
    modifies account
    ensures match RunOrders(m, done, day, orders)
            case Ok(fills) => r == Ok((fills.trades, fills.unfilled)) && account.State() == fills.account
            case Err(code) => r == Err(code)
  {
    hide ExecuteInstruction, ExecutionFacts;
    var trades, unfilled := trades0, unfilled0;
    for i := 0 to |orders|
      invariant RunOrders(m, Fills(account.State(), trades, unfilled), day, orders[i..])
                == RunOrders(m, done, day, orders)
    {
      var step := StepOrderOn(account, m, day, orders[i]);
      if step.Err? {
        return Err(step.code);
      }
      trades, unfilled := trades + step.value.0, unfilled + step.value.1;
    }
    return Ok((trades, unfilled));
  }

  method StepOrderOn(account: SimulatedAccount, m: Market, day: Date, o: Rebalance.Order)
    returns (r: Result<(seq<(Record, Asset)>, seq<UnfilledRecord>)>)
    modifies account
    ensures match StepOrder(m, old(account.State()), day, o)
            case Ok(fills) => r == Ok((fills.trades, fills.unfilled)) && account.State() == fills.account
            case Err(code) => r == Err(code)
  {
    var found := m.rows(day, o.id);
    if found.None? {
      return Err(MISSING);
    }
    var row := found.value;
    if row.open.None? && !row.suspended {
      return Ok(([], [UnfilledRecord(o.id, o.side, o.requested, 0, o.requested, NO_EXECUTION_PRICE)]));
    }
    var facts :- ExecutionFacts(row);
    r := ExecuteInstructionOn(account, m, day, InstructionOf(o, row), row, facts);
  }

  /** The executor of allocation decisions over the account object. */
  method ExecuteAllocationOn(account: SimulatedAccount, m: Market, day: Date, targets: seq<Rebalance.Target>)
    returns (r: Result<Report>)
    modifies account
    ensures match ExecuteAllocation(m, old(account.State()), day, targets)
            case Ok(executed) => r == Ok(ReportOf(executed)) && account.State() == executed.fills.account
            case Err(code) => r == Err(code)
  {
    hide RunOrders, Turnover, Rebalance.PlanOf;
    var before := account.State();
    var ids := before.positions.Keys + TargetIds(targets);
    if !AllPriced(m, day, ids) {
      return Err(MISSING);
    }
    var market := PlanningMarket(m, day, ids, Worth(m, day, before, InOrder(before.positions.Keys)));
    var estimate := FeeEstimate(m, day);
    var sellPlan :- Rebalance.PlanRebalance(market, targets, PositionsOf(before), 0.0, estimate);
    var sold :- RunOrdersOn(account, m, day, sellPlan.sells, Fills(before, [], []), [], []);
    ghost var between := Fills(account.State(), sold.0, sold.1);
    var buyPlan :-
      Rebalance.PlanRebalance(market, targets, PositionsOf(account.State()), account.cashAvailable, estimate);
    var bought :- RunOrdersOn(account, m, day, buyPlan.buys, between, sold.0, sold.1);
    var turnover :- Turnover(m, day, before, account.State());
    return Ok(Report(bought.0, bought.1, turnover.0, turnover.1));
  }

  // ----- an allocation, too, is a chain of real trades

  lemma {:induction false} RunOrdersApply(m: Market, a: Account, done: Fills, day: Date, orders: seq<Rebalance.Order>)
    requires AfterTrades(m, a, day, done.trades) == Ok(done.account) && RunOrders(m, done, day, orders).Ok?
    ensures var out := RunOrders(m, done, day, orders).value;
            AfterTrades(m, a, day, out.trades) == Ok(out.account)
    decreases |orders|
  {
    hide AfterTrades, StepOrder;
    if orders != [] {
      var step := StepOrder(m, done.account, day, orders[0]).value;
      StepOrderApplies(m, done.account, day, orders[0]);
      StepExtendsApplied(m, a, day, done, step);
      RunOrdersApply(
        m, a, Fills(step.account, done.trades + step.trades, done.unfilled + step.unfilled), day, orders[1..]);
    }
  }

  lemma StepOrderApplies(m: Market, a: Account, day: Date, o: Rebalance.Order)
    requires StepOrder(m, a, day, o).Ok?
    ensures StepApplies(m, a, day, StepOrder(m, a, day, o).value)
  {
    hide ExecuteInstruction;
    var row := m.rows(day, o.id).value;
    if !(row.open.None? && !row.suspended) {
      InstructionApplies(m, a, day, InstructionOf(o, row), row, ExecutionFacts(row).value);
    }
  }

  lemma AllocationApplies(m: Market, a: Account, day: Date, targets: seq<Rebalance.Target>)
    requires ExecuteAllocation(m, a, day, targets).Ok?
    ensures var fills := ExecuteAllocation(m, a, day, targets).value.fills;
            AfterTrades(m, a, day, fills.trades) == Ok(fills.account)
  {
    hide AfterTrades, RunOrders, Turnover, PlanFor;
    var market := PlanningMarket(
      m, day, a.positions.Keys + TargetIds(targets), Worth(m, day, a, InOrder(a.positions.Keys)));
    var sellPlan := PlanFor(m, day, market, targets, a, 0.0).value;
    NothingApplies(m, a, day, Fills(a, [], []));
    RunOrdersApply(m, a, Fills(a, [], []), day, sellPlan.sells);
    var sold := RunOrders(m, Fills(a, [], []), day, sellPlan.sells).value;
    RunOrdersApply(m, a, sold, day, PlanFor(m, day, market, targets, sold.account, sold.account.cash).value.buys);
  }

  /** Orders the account can place: positive, and sold only from a position it has. */
  ghost predicate Placeable(o: Rebalance.Order, a: Account) {
    o.requested > 0 && (o.side == SELL ==> o.id in a.positions)
  }

  lemma StepOrderTrades(m: Market, a: Account, day: Date, o: Rebalance.Order)
    requires Sound(a) && m.participation >= 0.0 && Placeable(o, a) && StepOrder(m, a, day, o).Ok?
    ensures StepTrades(m, a, day, StepOrder(m, a, day, o).value)
  {
    hide RealTrade, ExecuteInstruction;
    var row := m.rows(day, o.id).value;
    if !(row.open.None? && !row.suspended) {
      InstructionTradesOnce(m, a, day, InstructionOf(o, row), row, ExecutionFacts(row).value);
    }
  }

  lemma {:induction false} RunOrdersTrade(m: Market, a: Account, done: Fills, day: Date, orders: seq<Rebalance.Order>)
    requires Sound(done.account) && m.participation >= 0.0 && Trades(m, a, day, done.trades, done.account)
    requires forall i | 0 <= i < |orders| :: Placeable(orders[i], done.account)
    requires RunOrders(m, done, day, orders).Ok?
    ensures var out := RunOrders(m, done, day, orders).value;
            Trades(m, a, day, out.trades, out.account) && Sound(out.account)
    decreases |orders|
  {
    hide StepOrder, Trades, Sound, StepTrades;
    if orders != [] {
      var step := StepOrder(m, done.account, day, orders[0]).value;
      StepOrderTrades(m, done.account, day, orders[0]);
      StepExtendsTrades(m, a, day, done, step);
      TradeIsSound(m, done.account, day, step);
      RunOrdersTrade(
        m, a, Fills(step.account, done.trades + step.trades, done.unfilled + step.unfilled), day, orders[1..]);
    }
  }

  /** The planner sells only what is held, and orders positive quantities. */
  lemma PlannedOrdersArePlaceable(
    m: Market, day: Date, market: Rebalance.Market, targets: seq<Rebalance.Target>, a: Account, budget: real)
    requires Sound(a) && PlanFor(m, day, market, targets, a, budget).Ok?
    ensures var plan := PlanFor(m, day, market, targets, a, budget).value;
            && (forall i | 0 <= i < |plan.sells| :: Placeable(plan.sells[i], a))
            && forall i | 0 <= i < |plan.buys| :: Placeable(plan.buys[i], a)
  {
    var plan := PlanFor(m, day, market, targets, a, budget).value;
    var estimate := FeeEstimate(m, day);
    var ranked := Rebalance.Ranked(market, targets, PositionsOf(a), estimate);
    Rebalance.GreedyLength(ranked, budget);
    hide Sort, Rebalance.Sells, Rebalance.Greedy, Rebalance.Ranked, Rebalance.OrdersOf, Rebalance.Wanted;
    forall i | 0 <= i < |plan.sells|
      ensures Placeable(plan.sells[i], a)
    {
      var p := Rebalance.SalesStopAtTheTarget(market, targets, PositionsOf(a), plan.sells[i]);
    }
    forall i | 0 <= i < |plan.buys|
      ensures Placeable(plan.buys[i], a)
    {
      var k := Rebalance.BuysComeFromCandidates(ranked, Rebalance.Greedy(ranked, budget), plan.buys[i]);
    }
  }

  /** A whole allocation is a chain of real trades. */
  lemma AllocationTrades(m: Market, a: Account, day: Date, targets: seq<Rebalance.Target>)
    requires Sound(a) && m.participation >= 0.0 && ExecuteAllocation(m, a, day, targets).Ok?
    ensures var fills := ExecuteAllocation(m, a, day, targets).value.fills;
            Trades(m, a, day, fills.trades, fills.account)
  {
    hide Trades, RunOrders, Turnover, Sound, PlanFor, Placeable;
    var market := PlanningMarket(
      m, day, a.positions.Keys + TargetIds(targets), Worth(m, day, a, InOrder(a.positions.Keys)));
    PlannedOrdersArePlaceable(m, day, market, targets, a, 0.0);
    var sellPlan := PlanFor(m, day, market, targets, a, 0.0).value;
    NoTrades(m, a, day);
    RunOrdersTrade(m, a, Fills(a, [], []), day, sellPlan.sells);
    var sold := RunOrders(m, Fills(a, [], []), day, sellPlan.sells).value;
    PlannedOrdersArePlaceable(m, day, market, targets, sold.account, sold.account.cash);
    RunOrdersTrade(m, a, sold, day, PlanFor(m, day, market, targets, sold.account, sold.account.cash).value.buys);
  }
}
