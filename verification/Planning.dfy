/** What a rebalance plan is made of: the target of each weight, who is bought first, what is sold first, and what an
    allocation tells its planner before and after its sales. */
module Planning {
  import opened Base
  import opened Numeric
  import opened Sequences
  import opened FeeSchedule
  import opened Sizing
  import opened Execution
  import opened Accounts
  import opened IntentExecutor
  import opened AllocationExecutor
  import Orders
  import Rebalance

  // ----- targets

  /** A weight's part of the portfolio. */
  function PartOfValue(market: Rebalance.Market, t: Rebalance.Target): real {
    market.value * t.weight
  }

  lemma FloorToLotMeans(amount: real, price: real, lot: Rebalance.Lot)
    requires price > 0.0 && amount > 0.0
    ensures Orders.MostLots(Max(0, FloorToLot(amount / price, lot)), lot, price, amount)
  {
    var shares := amount / price;
    var n := (shares / lot as real).Floor;
    TickFloor(shares, lot as real);
    QuotientIsMonotone(0.0, amount, price);
    QuotientIsMonotone(0.0, shares, lot as real);
    DivideThenMultiply(amount, price);
    assert n >= 0;
    LotsInShares(n, lot, shares);
    WorthOfLots(n * lot, lot, shares, price, amount);
    ModuloOfMultiple(n, lot);
  }

  lemma WorthOfLots(quantity: int, lot: Rebalance.Lot, shares: real, price: real, amount: real)
    requires price > 0.0 && shares * price == amount && quantity as real <= shares < (quantity + lot) as real
    ensures Gross(quantity, price) <= amount < Gross(quantity + lot, price)
  {
    MulMonotone(quantity as real, shares, price);
    MulStrictlyMonotone(shares, (quantity + lot) as real, price);
  }

  lemma LotsInShares(n: int, lot: Rebalance.Lot, shares: real)
    requires n >= 0 && Ticks(n, lot as real) <= shares < Ticks(n + 1, lot as real)
    ensures 0 <= n * lot && (n * lot) as real <= shares < (n * lot + lot) as real
  {
    assert (n * lot) as real == Ticks(n, lot as real);
    assert (n * lot + lot) as real == Ticks(n + 1, lot as real);
  }

  /** A target is the most whole lots that its weight's part of the portfolio, rounded to fen, pays for. */
  lemma TargetMeans(market: Rebalance.Market, t: Rebalance.Target) returns (amount: real)
    requires Rebalance.Priced(market, t.id) && PartOfValue(market, t) >= 0.0
    ensures ToFen(amount, PartOfValue(market, t))
    ensures Orders.MostLots(Rebalance.TargetQuantity(market, t), market.rules[t.id].buyLot, market.prices[t.id], amount)
  {
    var price, lot := market.prices[t.id], market.rules[t.id].buyLot;
    amount := Rebalance.TargetAmount(market, t);
    AmountIsThePart(market, t);
    hide Rebalance.TargetAmount, PartOfValue, ToFen;
    if amount > 0.0 {
      FloorToLotMeans(amount, price, lot);
      hide FloorToLot, Orders.MostLots;
    } else {
      MulStrictlyMonotone(0.0, lot as real, price);
    }
  }

  lemma AmountIsThePart(market: Rebalance.Market, t: Rebalance.Target)
    requires PartOfValue(market, t) >= 0.0
    ensures ToFen(Rebalance.TargetAmount(market, t), PartOfValue(market, t)) && Rebalance.TargetAmount(market, t) >= 0.0
  {
    QuantizedToFen(PartOfValue(market, t));
  }

  lemma NoTargetForANegativePart(market: Rebalance.Market, t: Rebalance.Target)
    requires Rebalance.Priced(market, t.id) && PartOfValue(market, t) < 0.0
    ensures Rebalance.TargetQuantity(market, t) == 0
  {
    assert Rebalance.TargetAmount(market, t) <= 0.0;
  }

  // ----- who is bought, and first

  /** A security short of its target, as the planner sees it: what it lacks of the portfolio, its own lots, price and
      fees, and its priority, with none given counting as the last. */
  ghost predicate IsShort(
    market: Rebalance.Market, positions: seq<Rebalance.Position>, estimate: Rebalance.Estimate, t: Rebalance.Target,
    c: Rebalance.Candidate)
  {
    && Rebalance.Priced(market, t.id)
    && c.id == t.id && c.price == market.prices[t.id] && c.lot == market.rules[t.id].buyLot
    && c.current == Rebalance.Held(positions, t.id) && c.target == Rebalance.TargetQuantity(market, t)
    && c.current < c.target
    && (forall quantity: nat :: c.fee(quantity) == estimate.fee(t.id, quantity))
    && c.covered == estimate.covers(t.id)
    && c.priority == (if t.priority == 0 then 1_000_000_000 else t.priority)
    && (market.value <= 0.0 ==> c.gap == 0.0)
    && (market.value > 0.0 ==> ToFen(GapAmount(c, market.value), PartOfValue(market, t)))
  }

  /** What the security holds at its price and lacks. */
  function GapAmount(c: Rebalance.Candidate, value: real): real {
    c.gap * value + Gross(c.current, c.price)
  }

  lemma GapIsTheLack(c: Rebalance.Candidate, amount: real, value: real)
    requires value > 0.0 && c.gap == Rebalance.RelativeGap(amount, c.current, c.price, value)
    ensures GapAmount(c, value) == amount
  {
    var lack := amount - c.current as real * c.price;
    DivideThenMultiply(lack, value);
    assert c.gap == lack / value;
    QuotientTimes(c.gap, lack, value);
  }

  lemma QuotientTimes(q: real, x: real, n: real)
    requires n > 0.0 && q == x / n
    ensures q * n == x
  {
    DivideThenMultiply(x, n);
  }

  lemma CandidateIsShort(
    market: Rebalance.Market, positions: seq<Rebalance.Position>, estimate: Rebalance.Estimate, t: Rebalance.Target)
    requires PartOfValue(market, t) >= 0.0
    ensures var made := Rebalance.CandidateOf(market, positions, estimate, t);
            if Rebalance.Priced(market, t.id)
               && Rebalance.Held(positions, t.id) < Rebalance.TargetQuantity(market, t) then
              |made| == 1 && IsShort(market, positions, estimate, t, made[0])
            else made == []
  {
    hide Rebalance.TargetQuantity, Rebalance.RelativeGap;
    var made := Rebalance.CandidateOf(market, positions, estimate, t);
    if made != [] {
      var amount := Rebalance.TargetAmount(market, t);
      AmountIsThePart(market, t);
      hide Rebalance.TargetAmount, PartOfValue, ToFen;
      if market.value > 0.0 {
        GapIsTheLack(made[0], amount, market.value);
      } else {
        NoGapWithoutValue(amount, Rebalance.Held(positions, t.id), market.prices[t.id], market.value);
      }
    }
  }

  lemma NoGapWithoutValue(amount: real, current: int, price: real, value: real)
    requires value <= 0.0
    ensures Rebalance.RelativeGap(amount, current, price, value) == 0.0
  {
  }

  ghost predicate Named(targets: seq<Rebalance.Target>, market: Rebalance.Market, positions: seq<Rebalance.Position>,
      estimate: Rebalance.Estimate, c: Rebalance.Candidate) {
    exists t | t in targets :: IsShort(market, positions, estimate, t, c)
  }

  ghost predicate Nominates(candidates: seq<Rebalance.Candidate>, market: Rebalance.Market,
      positions: seq<Rebalance.Position>, estimate: Rebalance.Estimate, t: Rebalance.Target) {
    exists c | c in candidates :: IsShort(market, positions, estimate, t, c)
  }

  predicate Lacks(market: Rebalance.Market, positions: seq<Rebalance.Position>, t: Rebalance.Target) {
    Rebalance.Priced(market, t.id) && Rebalance.Held(positions, t.id) < Rebalance.TargetQuantity(market, t)
  }

  lemma {:induction false} CandidatesAreTheShort(
    market: Rebalance.Market, targets: seq<Rebalance.Target>, positions: seq<Rebalance.Position>,
    estimate: Rebalance.Estimate)
    requires forall t | t in targets :: PartOfValue(market, t) >= 0.0
    ensures var made := Rebalance.CandidatesOf(market, targets, positions, estimate);
            && (forall c | c in made :: Named(targets, market, positions, estimate, c))
            && forall t | t in targets && Lacks(market, positions, t) :: Nominates(made, market, positions, estimate, t)
  {
    hide IsShort, Rebalance.CandidateOf, PartOfValue;
    if targets != [] {
      var n := |targets| - 1;
      var t := targets[n];
      CandidatesAreTheShort(market, targets[..n], positions, estimate);
      CandidateIsShort(market, positions, estimate, t);
      var earlier := Rebalance.CandidatesOf(market, targets[..n], positions, estimate);
      var made := Rebalance.CandidatesOf(market, targets, positions, estimate);
      forall c | c in made
        ensures Named(targets, market, positions, estimate, c)
      {
        if c in earlier {
          assert Named(targets[..n], market, positions, estimate, c);
          var u :| u in targets[..n] && IsShort(market, positions, estimate, u, c);
          assert u in targets;
        }
      }
      forall u | u in targets && Lacks(market, positions, u)
        ensures Nominates(made, market, positions, estimate, u)
      {
        if u != t {
          assert u in targets[..n];
          assert Nominates(earlier, market, positions, estimate, u);
          var c :| c in earlier && IsShort(market, positions, estimate, u, c);
          assert c in made;
        } else {
          assert Rebalance.CandidateOf(market, positions, estimate, t)[0] in made;
        }
      }
    }
  }

  /** The wider gap first, then the smaller priority, then the id. */
  predicate BoughtBefore(x: Rebalance.Candidate, y: Rebalance.Candidate) {
    || x.gap > y.gap
    || (x.gap == y.gap && (x.priority < y.priority || (x.priority == y.priority && x.id <= y.id)))
  }

  /** The budget goes to exactly the securities short of their targets, widest gap first. */
  lemma RankedAreTheShort(
    market: Rebalance.Market, targets: seq<Rebalance.Target>, positions: seq<Rebalance.Position>,
    estimate: Rebalance.Estimate)
    requires forall t | t in targets :: PartOfValue(market, t) >= 0.0
    ensures var ranked := Rebalance.Ranked(market, targets, positions, estimate);
            && (forall c | c in ranked :: Named(targets, market, positions, estimate, c))
            && (forall t | t in targets && Lacks(market, positions, t) ::
                  Nominates(ranked, market, positions, estimate, t))
            && forall i, j | 0 <= i < j < |ranked| :: BoughtBefore(ranked[i], ranked[j])
  {
    hide IsShort, PartOfValue, Sort, Lacks, Rebalance.CandidatesOf;
    CandidatesAreTheShort(market, targets, positions, estimate);
    Rebalance.WidestGapIsTotal();
    var made := Rebalance.CandidatesOf(market, targets, positions, estimate);
    var ranked := Rebalance.Ranked(market, targets, positions, estimate);
    SortSorts(Rebalance.WidestGapFirst(), made);
    forall c
      ensures c in ranked <==> c in made
    {
      SortKeepsMembers(Rebalance.WidestGapFirst(), made, c);
    }
    forall t | t in targets && Lacks(market, positions, t)
      ensures Nominates(ranked, market, positions, estimate, t)
    {
      assert Nominates(made, market, positions, estimate, t);
      var c :| c in made && IsShort(market, positions, estimate, t, c);
      assert c in ranked;
    }
    forall i, j | 0 <= i < j < |ranked|
      ensures BoughtBefore(ranked[i], ranked[j])
    {
      assert Rebalance.WidestGapFirst()(ranked[i], ranked[j]);
    }
  }

  // ----- what is sold, and first

  /** Exits first, then by id. */
  predicate SoldBefore(x: Rebalance.Order, y: Rebalance.Order) {
    (x.target == 0 && y.target != 0) || ((x.target == 0 <==> y.target == 0) && x.id <= y.id)
  }

  lemma ExitsFirstIsTotal()
    ensures TotalPreorder(Rebalance.ExitsFirst())
  {
  }

  /** What a plan sells, in order; and the cash it says remains is the budget less what its buys cost, in fen. */
  lemma PlanMeans(
    market: Rebalance.Market, targets: seq<Rebalance.Target>, positions: seq<Rebalance.Position>, budget: real,
    estimate: Rebalance.Estimate)
    requires budget >= 0.0 && Rebalance.PlanOf(market, targets, positions, budget, estimate).Ok?
    ensures var plan := Rebalance.PlanOf(market, targets, positions, budget, estimate).value;
            var ranked := Rebalance.Ranked(market, targets, positions, estimate);
            && Rebalance.Sells(market, targets, positions).Ok?
            && multiset(plan.sells) == multiset(Rebalance.Sells(market, targets, positions).value)
            && (forall i, j | 0 <= i < j < |plan.sells| :: SoldBefore(plan.sells[i], plan.sells[j]))
            && |Rebalance.Greedy(ranked, budget)| == |ranked|
            && plan.buys == Rebalance.OrdersOf(ranked, Rebalance.Greedy(ranked, budget))
            && ToFen(plan.cashRemaining, budget - Rebalance.Spending(ranked, Rebalance.Greedy(ranked, budget)))
  {
    hide Rebalance.Sells, Sort, Rebalance.Ranked, Rebalance.Greedy, Rebalance.OrdersOf, Rebalance.Spending;
    hide Rebalance.FeesFail, ToFen;
    var ranked := Rebalance.Ranked(market, targets, positions, estimate);
    Rebalance.GreedyLength(ranked, budget);
    Rebalance.GreedyStaysWithinBudget(ranked, budget);
    QuantizedToFen(budget - Rebalance.Spending(ranked, Rebalance.Greedy(ranked, budget)));
    ExitsFirstIsTotal();
    var plan := Rebalance.PlanOf(market, targets, positions, budget, estimate).value;
    SortSorts(Rebalance.ExitsFirst(), Rebalance.Sells(market, targets, positions).value);
    forall i, j | 0 <= i < j < |plan.sells|
      ensures SoldBefore(plan.sells[i], plan.sells[j])
    {
      assert Rebalance.ExitsFirst()(plan.sells[i], plan.sells[j]);
    }
  }

  /** Every position above its target that can be priced is sold, as far as lots and sellable shares allow. */
  lemma {:induction false} ExcessIsSold(
    market: Rebalance.Market, targets: seq<Rebalance.Target>, positions: seq<Rebalance.Position>, p: Rebalance.Position)
    requires Rebalance.Sells(market, targets, positions).Ok? && p in positions
    requires p.quantity > Rebalance.Wanted(market, targets, p.id) && p.id in market.prices
    ensures p.id in market.rules
    ensures var wanted := Rebalance.Wanted(market, targets, p.id);
            var requested := Rebalance.SellQuantity(p, wanted, market.rules[p.id].sellLot);
            requested > 0 ==>
              Rebalance.Order(p.id, SELL, p.quantity, wanted, requested)
              in Rebalance.Sells(market, targets, positions).value
  {
    hide Rebalance.Wanted, Rebalance.SellQuantity;
    var n := |positions| - 1;
    if p != positions[n] {
      ExcessIsSold(market, targets, positions[..n], p);
    }
  }

  // ----- what an allocation tells the planner

  /** Prices, lots and fees as the executor has them, and the value of the portfolio. */
  ghost predicate Told(
    m: Market, day: Date, market: Rebalance.Market, estimate: Rebalance.Estimate, ids: set<Id>, value: real)
  {
    && market.prices.Keys == ids && market.value == value
    && (forall s | s in ids :: Quoted(m, day, market, estimate, s))
  }

  ghost predicate Quoted(m: Market, day: Date, market: Rebalance.Market, estimate: Rebalance.Estimate, s: Id) {
    && m.rows(day, s).Some? && s in market.prices && s in market.rules
    && var row := m.rows(day, s).value;
       && Orders.Stands(market.prices[s], row.open, row.valuationClose)
       && market.rules[s] == Rebalance.LotRule(row.buyLot, row.sellLot)
       && forall quantity: nat ::
            var fees := Calculate(m.fees, row.asset, BUY, Gross(quantity, market.prices[s]), day);
            fees.Ok? ==> estimate.fee(s, quantity) == fees.value.Total()
  }

  lemma PlannerIsTold(m: Market, day: Date, ids: set<Id>, value: real)
    requires AllPriced(m, day, ids)
    ensures Told(m, day, PlanningMarket(m, day, ids, value), FeeEstimate(m, day), ids, value)
  {
    var market, estimate := PlanningMarket(m, day, ids, value), FeeEstimate(m, day);
    forall s | s in ids
      ensures Quoted(m, day, market, estimate, s)
    {
      assert IntentExecutor.Priced(m, day, s);
      Orders.ReferenceMeans(m.rows(day, s).value);
      forall quantity: nat
        ensures var fees := Calculate(m.fees, m.rows(day, s).value.asset, BUY, Gross(quantity, market.prices[s]), day);
                fees.Ok? ==> estimate.fee(s, quantity) == fees.value.Total()
      {
        FeeIsEstimated(m, day, s, quantity);
      }
    }
  }

  lemma FeeIsEstimated(m: Market, day: Date, s: Id, quantity: nat)
    requires m.rows(day, s).Some?
    ensures var fees := Calculate(m.fees, m.rows(day, s).value.asset, BUY, Gross(quantity, PriceOn(m, day, s)), day);
            fees.Ok? ==> FeeEstimate(m, day).fee(s, quantity) == fees.value.Total()
  {
    var asset, price := AssetOn(m, day, s), PriceOn(m, day, s);
    assert FeeEstimate(m, day).fee(s, quantity) == TotalFee(m.fees, asset, BUY, price, day)(quantity);
    TotalFeeIsCalculated(m.fees, asset, price, day, quantity);
  }

  lemma TotalFeeIsCalculated(model: FeeModel, asset: Asset, price: real, day: Date, quantity: nat)
    ensures var fees := Calculate(model, asset, BUY, Gross(quantity, price), day);
            TotalFee(model, asset, BUY, price, day)(quantity) == if fees.Ok? then fees.value.Total() else 0.0
  {
  }

  /** An allocation in two parts. The sales are planned on the account as it opened, without a budget; the purchases on
      the account the sales left, with its cash; and both on the value of the portfolio at the open. */
  lemma AllocationMeans(m: Market, a: Account, day: Date, targets: seq<Rebalance.Target>)
    returns (market: Rebalance.Market, estimate: Rebalance.Estimate, sells: Rebalance.Plan, between: Fills,
             buys: Rebalance.Plan)
    requires ExecuteAllocation(m, a, day, targets).Ok?
    ensures Told(m, day, market, estimate, a.positions.Keys + TargetIds(targets),
                 Orders.ValueOf(m, day, a, InOrder(a.positions.Keys)))
    ensures Rebalance.PlanOf(market, targets, PositionsOf(a), 0.0, estimate) == Ok(sells)
    ensures RunOrders(m, Fills(a, [], []), day, sells.sells) == Ok(between)
    ensures Rebalance.PlanOf(market, targets, PositionsOf(between.account), between.account.cash, estimate) == Ok(buys)
    ensures RunOrders(m, between, day, buys.buys) == Ok(ExecuteAllocation(m, a, day, targets).value.fills)
  {
    hide Told, RunOrders, Turnover, Rebalance.PlanOf, PlanningMarket, FeeEstimate, IntentExecutor.Worth, Orders.ValueOf;
    hide AllPriced;
    var ids := a.positions.Keys + TargetIds(targets);
    var value := IntentExecutor.Worth(m, day, a, InOrder(a.positions.Keys));
    Orders.ValueIsWorth(m, day, a, InOrder(a.positions.Keys));
    PlannerIsTold(m, day, ids, value);
    market, estimate := PlanningMarket(m, day, ids, value), FeeEstimate(m, day);
    sells := PlanFor(m, day, market, targets, a, 0.0).value;
    between := RunOrders(m, Fills(a, [], []), day, sells.sells).value;
    buys := PlanFor(m, day, market, targets, between.account, between.account.cash).value;
  }

  /** Its orders are placed in the lots of their side. */
  lemma OrdersKeepTheirLots(o: Rebalance.Order, row: Row)
    ensures var i := InstructionOf(o, row);
            && i.security == o.id && i.side == o.side && i.requested == o.requested
            && (o.side == BUY ==> i.lot == row.buyLot) && (o.side == SELL ==> i.lot == row.sellLot)
  {
  }
}
