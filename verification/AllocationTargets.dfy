/** What an allocation decision does to a position, over both plans, partial fills and cash limits: it
    moves toward its target and never past it. */
module AllocationTargets {
  import opened Base
  import opened Sequences
  import opened Sizing
  import opened Execution
  import opened Accounts
  import opened IntentExecutor
  import opened AllocationExecutor
  import opened Rebalance

  // ----- what a list of orders asks for in one security

  function Requested(orders: seq<Order>, s: Id): int {
    if orders == [] then 0 else (if orders[0].id == s then orders[0].requested else 0) + Requested(orders[1..], s)
  }

  lemma {:induction false} RequestedAppends(left: seq<Order>, right: seq<Order>, s: Id)
    ensures Requested(left + right, s) == Requested(left, s) + Requested(right, s)
  {
    if left == [] {
      assert left + right == right;
    } else {
      RequestedAppends(left[1..], right, s);
      assert (left + right)[1..] == left[1..] + right;
    }
  }

  lemma {:induction false} InsertKeepsRequested(before: (Order, Order) -> bool, o: Order, ys: seq<Order>, s: Id)
    ensures Requested(Sequences.Insert(before, o, ys), s) == (if o.id == s then o.requested else 0) + Requested(ys, s)
  {
    if ys == [] || before(o, ys[0]) {
      assert ([o] + ys)[1..] == ys;
    } else {
      InsertKeepsRequested(before, o, ys[1..], s);
      assert ([ys[0]] + Sequences.Insert(before, o, ys[1..]))[1..] == Sequences.Insert(before, o, ys[1..]);
    }
  }

  lemma {:induction false} SortKeepsRequested(before: (Order, Order) -> bool, orders: seq<Order>, s: Id)
    ensures Requested(Sort(before, orders), s) == Requested(orders, s)
  {
    if orders != [] {
      SortKeepsRequested(before, orders[1..], s);
      InsertKeepsRequested(before, orders[0], Sort(before, orders[1..]), s);
    }
  }

  // ----- the sells

  ghost predicate Apart(positions: seq<Position>) {
    forall i, j | 0 <= i < j < |positions| :: positions[i].id != positions[j].id
  }

  lemma {:induction false} BookListsEachOnce(a: Account, ids: set<Id>, s: Id)
    ensures Apart(Book(a, InOrder(ids)))
    ensures s in ids ==> Held(Book(a, InOrder(ids)), s) == Get(a.positions, s)
    ensures s !in ids ==> Held(Book(a, InOrder(ids)), s) == 0
    decreases ids
  {
    if ids != {} {
      var least := Least(ids);
      var rest := Book(a, InOrder(ids - {least}));
      BookListsEachOnce(a, ids - {least}, s);
      assert InOrder(ids)[1..] == InOrder(ids - {least});
      var all := Book(a, InOrder(ids));
      assert all[1..] == rest && all[0].id == least;
      forall i, j | 0 <= i < j < |all|
        ensures all[i].id != all[j].id
      {
        assert all[j] == rest[j - 1];
        if i > 0 {
          assert all[i] == rest[i - 1];
        }
      }
    }
  }

  lemma OneSale(market: Rebalance.Market, targets: seq<Target>, p: Position, s: Id)
    requires SellOf(market, Wanted(market, targets, p.id), p).Ok?
    ensures var asked := Requested(SellOf(market, Wanted(market, targets, p.id), p).value, s);
            && 0 <= asked
            && (if p.id == s then asked <= Max(0, p.quantity - Wanted(market, targets, s)) else asked == 0)
  {
    hide Wanted, Rebalance.SellQuantity;
    var wanted := Wanted(market, targets, p.id);
    var orders := SellOf(market, wanted, p).value;
    if orders != [] {
      SalesAreSellable(p, wanted, market.rules[p.id].sellLot);
      SellQuantityIsLargest(p, wanted, market.rules[p.id].sellLot);
      assert orders[1..] == [];
    }
  }

  /** The sells never ask for more of a security than it exceeds its target by. */
  lemma {:induction false} SalesAreTheExcess(
    market: Rebalance.Market, targets: seq<Target>, positions: seq<Position>, s: Id)
    requires Apart(positions) && Sells(market, targets, positions).Ok?
    ensures 0 <= Requested(Sells(market, targets, positions).value, s)
            <= Max(0, Held(positions, s) - Wanted(market, targets, s))
    ensures (forall i | 0 <= i < |positions| :: positions[i].id != s) ==>
              Requested(Sells(market, targets, positions).value, s) == 0
  {
    hide Wanted, SellOf;
    if positions != [] {
      var n := |positions| - 1;
      SalesAreTheExcess(market, targets, positions[..n], s);
      OneSale(market, targets, positions[n], s);
      RequestedAppends(Sells(market, targets, positions[..n]).value,
                       SellOf(market, Wanted(market, targets, positions[n].id), positions[n]).value, s);
      HeldAppends(positions, s);
    }
  }

  lemma {:induction false} HeldAppends(positions: seq<Position>, s: Id)
    requires positions != [] && Apart(positions)
    ensures var n := |positions| - 1;
            Held(positions, s) == if positions[n].id == s then positions[n].quantity else Held(positions[..n], s)
  {
    var n := |positions| - 1;
    if n > 0 {
      HeldAppends(positions[1..], s);
      assert positions[1..][..n - 1] == positions[..n][1..];
    }
  }

  // ----- the buys

  function Wishes(candidates: seq<Candidate>, s: Id): int {
    if candidates == [] then 0
    else (if candidates[0].id == s then Max(0, candidates[0].Wish()) else 0) + Wishes(candidates[1..], s)
  }

  lemma {:induction false} WishesAppend(left: seq<Candidate>, right: seq<Candidate>, s: Id)
    ensures Wishes(left + right, s) == Wishes(left, s) + Wishes(right, s)
  {
    if left == [] {
      assert left + right == right;
    } else {
      WishesAppend(left[1..], right, s);
      assert (left + right)[1..] == left[1..] + right;
    }
  }

  lemma {:induction false} InsertKeepsWishes(
    before: (Candidate, Candidate) -> bool, c: Candidate, ys: seq<Candidate>, s: Id)
    ensures Wishes(Sequences.Insert(before, c, ys), s) == (if c.id == s then Max(0, c.Wish()) else 0) + Wishes(ys, s)
  {
    if ys == [] || before(c, ys[0]) {
      assert ([c] + ys)[1..] == ys;
    } else {
      InsertKeepsWishes(before, c, ys[1..], s);
      assert ([ys[0]] + Sequences.Insert(before, c, ys[1..]))[1..] == Sequences.Insert(before, c, ys[1..]);
    }
  }

  lemma {:induction false} SortKeepsWishes(before: (Candidate, Candidate) -> bool, candidates: seq<Candidate>, s: Id)
    ensures Wishes(Sort(before, candidates), s) == Wishes(candidates, s)
  {
    if candidates != [] {
      SortKeepsWishes(before, candidates[1..], s);
      InsertKeepsWishes(before, candidates[0], Sort(before, candidates[1..]), s);
    }
  }

  lemma AffordIsWithinWish(c: Candidate, cash: real)
    ensures Afford(c, cash) <= Max(0, c.Wish())
  {
    if c.Wish() > 0 && c.price > 0.0 && cash > 0.0 {
      var accepts := Affords(c.lot, c.price, cash, c.fee);
      LotMultiple(Bisect(accepts, 0, MaxLots(c.Wish(), c.lot)), c.lot, c.Wish());
    }
  }

  lemma {:induction false} BuysStayWithinWishes(candidates: seq<Candidate>, cash: real, s: Id)
    ensures |Greedy(candidates, cash)| == |candidates|
    ensures 0 <= Requested(OrdersOf(candidates, Greedy(candidates, cash)), s) <= Wishes(candidates, s)
  {
    hide Afford, Charge;
    GreedyLength(candidates, cash);
    if candidates != [] {
      var c := candidates[0];
      var q := Afford(c, cash);
      AffordIsWithinWish(c, cash);
      BuysStayWithinWishes(candidates[1..], cash - Charge(c, q), s);
      var quantities := Greedy(candidates, cash);
      assert quantities[1..] == Greedy(candidates[1..], cash - Charge(c, q));
      RequestedAppends(if q > 0 then [Order(c.id, BUY, c.current, c.target, q)] else [],
                       OrdersOf(candidates[1..], quantities[1..]), s);
      if q > 0 {
        assert [Order(c.id, BUY, c.current, c.target, q)][1..] == [];
      }
    }
  }

  ghost predicate DistinctTargets(targets: seq<Target>) {
    forall i, j | 0 <= i < j < |targets| :: targets[i].id != targets[j].id
  }

  lemma {:induction false} WantedAppends(market: Rebalance.Market, targets: seq<Target>, s: Id)
    requires targets != [] && DistinctTargets(targets)
    ensures var n := |targets| - 1;
            Wanted(market, targets, s)
            == if targets[n].id == s && Rebalance.Priced(market, s) then TargetQuantity(market, targets[n])
               else Wanted(market, targets[..n], s)
  {
    hide TargetQuantity;
    var n := |targets| - 1;
    if n > 0 {
      WantedAppends(market, targets[1..], s);
      assert targets[1..][..n - 1] == targets[..n][1..];
    }
  }

  /** The candidates never wish for more of a security than its target lacks. */
  lemma {:induction false} WishesAreTheLack(
    market: Rebalance.Market, targets: seq<Target>, positions: seq<Position>, estimate: Estimate, s: Id)
    requires DistinctTargets(targets)
    ensures Wishes(CandidatesOf(market, targets, positions, estimate), s)
            <= Max(0, Wanted(market, targets, s) - Held(positions, s))
    ensures (forall i | 0 <= i < |targets| :: targets[i].id != s) ==>
              Wishes(CandidatesOf(market, targets, positions, estimate), s) == 0
    decreases |targets|
  {
    hide TargetQuantity, Held;
    if targets != [] {
      var n := |targets| - 1;
      var earlier, last :=
        CandidatesOf(market, targets[..n], positions, estimate), CandidateOf(market, positions, estimate, targets[n]);
      WishesAreTheLack(market, targets[..n], positions, estimate, s);
      WantedAppends(market, targets, s);
      WishesAppend(earlier, last, s);
      if last != [] {
        assert last[1..] == [];
      }
    }
  }

  // ----- the orders on the account

  lemma StepOrderMoves(m: IntentExecutor.Market, a: Account, day: Date, o: Order, s: Id)
    requires Sound(a) && m.participation >= 0.0 && Placeable(o, a) && StepOrder(m, a, day, o).Ok?
    ensures var b := StepOrder(m, a, day, o).value.account;
            && Sound(b) && a.positions.Keys <= b.positions.Keys
            && (o.id != s ==> Get(b.positions, s) == Get(a.positions, s))
            && (o.side == SELL ==> Get(a.positions, s) - o.requested <= Get(b.positions, s) <= Get(a.positions, s))
            && (o.side == BUY ==> Get(a.positions, s) <= Get(b.positions, s) <= Get(a.positions, s) + o.requested)
  {
    hide ExecuteInstruction, Price, ApplyTrade;
    var row := m.rows(day, o.id).value;
    var fills := StepOrder(m, a, day, o).value;
    StepOrderTrades(m, a, day, o);
    TradeIsSound(m, a, day, fills);
    if fills.trades != [] {
      InstructionTradesOnce(m, a, day, InstructionOf(o, row), row, ExecutionFacts(row).value);
      TradeMoves(a, fills.trades[0].0, ReleaseDate(m, day, fills.trades[0].0.side), s);
    }
  }

  lemma TradeMoves(a: Account, r: Record, release: Option<Date>, s: Id)
    requires Accounts.ApplyTrade(a, r, release).Ok? && r.filled > 0
    ensures var b := Accounts.ApplyTrade(a, r, release).value;
            && a.positions.Keys <= b.positions.Keys
            && Get(b.positions, s)
               == Get(a.positions, s) + (if r.security != s then 0 else if r.side == BUY then r.filled else -r.filled)
  {
  }

  /** Orders of one side, run in turn, move a position that way by at most what they ask for. */
  lemma {:induction false} OrdersMove(
    m: IntentExecutor.Market, done: Fills, day: Date, orders: seq<Order>, side: Side, s: Id)
    requires Sound(done.account) && m.participation >= 0.0 && RunOrders(m, done, day, orders).Ok?
    requires forall i | 0 <= i < |orders| :: Placeable(orders[i], done.account) && orders[i].side == side
    ensures var was, now := Get(done.account.positions, s),
                            Get(RunOrders(m, done, day, orders).value.account.positions, s);
            && Sound(RunOrders(m, done, day, orders).value.account)
            && (side == SELL ==> was - Requested(orders, s) <= now <= was)
            && (side == BUY ==> was <= now <= was + Requested(orders, s))
    decreases |orders|
  {
    hide StepOrder, Sound;
    if orders != [] {
      var step := StepOrder(m, done.account, day, orders[0]).value;
      StepOrderMoves(m, done.account, day, orders[0], s);
      OrdersMove(
        m, Fills(step.account, done.trades + step.trades, done.unfilled + step.unfilled), day, orders[1..], side, s);
    }
  }

  // ----- the whole decision

  /** What the decision wants of a security, valued as the portfolio opened. */
  function Goal(m: IntentExecutor.Market, day: Date, a: Account, targets: seq<Target>, s: Id): nat {
    Wanted(PlanningMarket(m, day, a.positions.Keys + TargetIds(targets), Worth(m, day, a, InOrder(a.positions.Keys))),
           targets, s)
  }

  lemma PlannedMoves(
    m: IntentExecutor.Market, day: Date, market: Rebalance.Market, targets: seq<Target>, a: Account, budget: real,
    s: Id)
    requires DistinctTargets(targets) && PlanFor(m, day, market, targets, a, budget).Ok?
    ensures var plan, held := PlanFor(m, day, market, targets, a, budget).value, Get(a.positions, s);
            && 0 <= Requested(plan.sells, s) <= Max(0, held - Wanted(market, targets, s))
            && 0 <= Requested(plan.buys, s) <= Max(0, Wanted(market, targets, s) - held)
  {
    hide Sells, Sort, Wanted, CandidatesOf, Wishes, Requested, Greedy, OrdersOf, Book, InOrder, Held;
    var positions, estimate := PositionsOf(a), FeeEstimate(m, day);
    var candidates := CandidatesOf(market, targets, positions, estimate);
    BookListsEachOnce(a, a.positions.Keys, s);
    SalesAreTheExcess(market, targets, positions, s);
    SortKeepsRequested(ExitsFirst(), Sells(market, targets, positions).value, s);
    WishesAreTheLack(market, targets, positions, estimate, s);
    SortKeepsWishes(WidestGapFirst(), candidates, s);
    BuysStayWithinWishes(Ranked(market, targets, positions, estimate), budget, s);
  }

  lemma PlannedSides(
    m: IntentExecutor.Market, day: Date, market: Rebalance.Market, targets: seq<Target>, a: Account, budget: real)
    requires PlanFor(m, day, market, targets, a, budget).Ok?
    ensures var plan := PlanFor(m, day, market, targets, a, budget).value;
            && (forall i | 0 <= i < |plan.sells| :: plan.sells[i].side == SELL)
            && (forall i | 0 <= i < |plan.buys| :: plan.buys[i].side == BUY)
  {
    hide Sort, Sells, Greedy, Ranked, OrdersOf, Wanted;
    var plan := PlanFor(m, day, market, targets, a, budget).value;
    var ranked := Ranked(market, targets, PositionsOf(a), FeeEstimate(m, day));
    GreedyLength(ranked, budget);
    forall i | 0 <= i < |plan.sells|
      ensures plan.sells[i].side == SELL
    {
      var _ := SalesStopAtTheTarget(market, targets, PositionsOf(a), plan.sells[i]);
    }
    forall i | 0 <= i < |plan.buys|
      ensures plan.buys[i].side == BUY
    {
      var _ := BuysComeFromCandidates(ranked, Greedy(ranked, budget), plan.buys[i]);
    }
  }

  /** An executed allocation leaves every position between where it was and its target, whatever filled:
      what was above stays at or above, what was below stays at or below, and nothing moves away. */
  lemma AllocationNeverOvershoots(m: IntentExecutor.Market, a: Account, day: Date, targets: seq<Target>, s: Id)
    requires Sound(a) && m.participation >= 0.0 && DistinctTargets(targets)
    requires ExecuteAllocation(m, a, day, targets).Ok?
    ensures var was, goal := Get(a.positions, s), Goal(m, day, a, targets, s);
            var now := Get(ExecuteAllocation(m, a, day, targets).value.fills.account.positions, s);
            && (was >= goal ==> goal <= now <= was)
            && (was <= goal ==> was <= now <= goal)
  {
    hide PlanFor, RunOrders, Turnover, Sound, Placeable, Requested, Wanted, PlanningMarket, Worth, AllPriced;
    var market := PlanningMarket(
      m, day, a.positions.Keys + TargetIds(targets), Worth(m, day, a, InOrder(a.positions.Keys)));
    var sellPlan := PlanFor(m, day, market, targets, a, 0.0).value;
    PlannedMoves(m, day, market, targets, a, 0.0, s);
    PlannedSides(m, day, market, targets, a, 0.0);
    PlannedOrdersArePlaceable(m, day, market, targets, a, 0.0);
    OrdersMove(m, Fills(a, [], []), day, sellPlan.sells, SELL, s);
    var sold := RunOrders(m, Fills(a, [], []), day, sellPlan.sells).value;
    PlannedMoves(m, day, market, targets, sold.account, sold.account.cash, s);
    PlannedSides(m, day, market, targets, sold.account, sold.account.cash);
    PlannedOrdersArePlaceable(m, day, market, targets, sold.account, sold.account.cash);
    OrdersMove(m, sold, day, PlanFor(m, day, market, targets, sold.account, sold.account.cash).value.buys, BUY, s);
  }
}
