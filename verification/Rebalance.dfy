/** Rebalance planning: sells toward target, then greedy buys under a cash budget. The daily advice
    runs the same budget loop. */
module Rebalance {
  import opened Base
  import opened Numeric
  import opened Sequences
  import opened Sizing
  import opened FeeSchedule
  import opened Execution

  type Lot = n: nat | n > 0 witness 1

  datatype LotRule = LotRule(buyLot: Lot, sellLot: Lot)
  datatype Target = Target(id: Id, weight: real, priority: nat)
  datatype Position = Position(id: Id, quantity: int, sellable: int)
  datatype Order = Order(id: Id, side: Side, current: int, target: nat, requested: int)
  datatype Plan = Plan(sells: seq<Order>, buys: seq<Order>, cashRemaining: real)

  datatype Market = Market(prices: map<Id, real>, rules: map<Id, LotRule>, value: real)

  /** Estimated fees of a purchase, and whether the schedule covers the security at all. */
  datatype Estimate = Estimate(fee: (Id, nat) -> real, covers: Id -> bool)

  /** A security to be bought, with the fee of each quantity of it. */
  datatype Candidate = Candidate(
    id: Id, gap: real, priority: nat, current: int, target: nat, price: real, lot: Lot, fee: nat -> real, covered: bool)
  {
    function Wish(): int {
      target - current
    }
  }

  const UNCOVERED := "CONFIG_VALUE_INVALID"

  function LotQuantity(amount: real, price: real, lot: Lot): nat {
    if amount <= 0.0 || price <= 0.0 then 0
    else Max(0, FloorToLot(amount / price, lot))
  }

  predicate Priced(market: Market, id: Id) {
    id in market.prices && market.prices[id] > 0.0 && id in market.rules
  }

  /** The amount a weight stands for, in fen. */
  function TargetAmount(market: Market, t: Target): real {
    QuantizeFen(market.value * t.weight)
  }

  function TargetQuantity(market: Market, t: Target): nat
    requires Priced(market, t.id)
  {
    LotQuantity(TargetAmount(market, t), market.prices[t.id], market.rules[t.id].buyLot)
  }

  /** `quantities.get(id, 0)`; targets have distinct ids. */
  function Wanted(market: Market, targets: seq<Target>, id: Id): nat {
    if targets == [] then 0
    else if targets[0].id == id && Priced(market, id) then TargetQuantity(market, targets[0])
    else Wanted(market, targets[1..], id)
  }

  // ----- sells

  function InLots(x: int, lot: Lot): int {
    x / lot * lot
  }

  function SellQuantity(p: Position, wanted: nat, lot: Lot): int
    requires p.quantity > wanted
  {
    var available := Min(p.quantity, p.sellable);
    if wanted == 0 then available else Min(InLots(p.quantity - wanted, lot), InLots(available, lot))
  }

  function SellOf(market: Market, wanted: nat, p: Position): Result<seq<Order>> {
    if p.quantity <= wanted || p.id !in market.prices then Ok([])
    else if p.id !in market.rules then Err("KeyError")
    else
      var requested := SellQuantity(p, wanted, market.rules[p.id].sellLot);
      Ok(if requested > 0 then [Order(p.id, SELL, p.quantity, wanted, requested)] else [])
  }

  function Sells(market: Market, targets: seq<Target>, positions: seq<Position>): Result<seq<Order>> {
    if positions == [] then Ok([])
    else
      var n := |positions| - 1;
      var earlier :- Sells(market, targets, positions[..n]);
      var last :- SellOf(market, Wanted(market, targets, positions[n].id), positions[n]);
      Ok(earlier + last)
  }

  /** A sale never passes the target or the sellable quantity; an exit sells all that is sellable, and
      otherwise no larger whole number of lots would fit. */
  lemma SellQuantityIsLargest(p: Position, wanted: nat, lot: Lot)
    requires p.quantity > wanted && p.sellable >= 0
    ensures var q := SellQuantity(p, wanted, lot);
            && 0 <= q <= p.sellable && wanted <= p.quantity - q
            && (wanted == 0 ==> q == Min(p.quantity, p.sellable))
            && (wanted > 0 ==>
                 && q % lot == 0
                 && forall more: nat | q < more && more % lot == 0 :: more > p.sellable || p.quantity - more < wanted)
  {
    hide InLots;
    if wanted > 0 {
      var available := Min(p.quantity, p.sellable);
      WholeLots(p.quantity - wanted, lot);
      WholeLots(available, lot);
    }
  }

  lemma WholeLots(x: nat, lot: Lot)
    ensures 0 <= InLots(x, lot) <= x && InLots(x, lot) % lot == 0
    ensures forall more: nat | InLots(x, lot) < more && more % lot == 0 :: more > x
  {
    ModuloOfMultiple(x / lot, lot);
    LotFloorIsBelow(x, lot);
    forall more: nat | InLots(x, lot) < more && more % lot == 0
      ensures more > x
    {
      if more <= x {
        LotCount(more, lot, x / lot, x);
      }
    }
  }

  // ----- buys

  function Cost(c: Candidate, quantity: nat): real {
    Gross(quantity, c.price) + c.fee(quantity)
  }

  function Afford(c: Candidate, cash: real): nat {
    AffordableQuantity(c.Wish(), c.lot, c.price, cash, c.fee)
  }

  /** Quantities bought in turn, each from the cash the earlier ones left. */
  function Greedy(candidates: seq<Candidate>, cash: real): seq<nat> {
    if candidates == [] then []
    else
      var q := Afford(candidates[0], cash);
      [q] + Greedy(candidates[1..], cash - Charge(candidates[0], q))
  }

  /** The fee estimate raises on the first candidate that is searched and not covered. */
  predicate FeesFail(candidates: seq<Candidate>, cash: real) {
    candidates != []
    && (|| (!candidates[0].covered && cash > 0.0 && candidates[0].price > 0.0
            && MaxLots(candidates[0].Wish(), candidates[0].lot) > 0)
        || FeesFail(candidates[1..], cash - Charge(candidates[0], Afford(candidates[0], cash))))
  }

  function Charge(c: Candidate, quantity: nat): real {
    if quantity > 0 then Cost(c, quantity) else 0.0
  }

  function Spending(candidates: seq<Candidate>, quantities: seq<nat>): real
    requires |candidates| == |quantities|
  {
    if candidates == [] then 0.0 else Charge(candidates[0], quantities[0]) + Spending(candidates[1..], quantities[1..])
  }

  lemma {:induction false} GreedyLength(candidates: seq<Candidate>, cash: real)
    ensures |Greedy(candidates, cash)| == |candidates|
  {
    if candidates != [] {
      GreedyLength(candidates[1..], cash - Charge(candidates[0], Afford(candidates[0], cash)));
    }
  }

  ghost predicate Buyable(c: Candidate) {
    c.price > 0.0 && c.target > c.current && FeeGrows(c.fee) && c.fee(0) == 0.0
  }

  lemma AffordIsWithinCash(c: Candidate, cash: real)
    requires Buyable(c) && cash >= 0.0
    ensures 0.0 <= Charge(c, Afford(c, cash)) <= cash
    ensures Afford(c, cash) <= c.Wish() && Afford(c, cash) % c.lot == 0
    ensures Charge(c, Afford(c, cash)) == Cost(c, Afford(c, cash))
    ensures forall more: nat | Afford(c, cash) < more <= c.Wish() && more % c.lot == 0 :: Cost(c, more) > cash
  {
    NothingCostsNothing(c);
    forall q: nat
      ensures Cost(c, q) >= 0.0 && (q > 0 ==> Cost(c, q) > 0.0)
    {
      QuantityCosts(c, q);
    }
    if cash > 0.0 {
      AffordableQuantityIsLargest(c.Wish(), c.lot, c.price, cash, c.fee);
    }
  }

  lemma NothingCostsNothing(c: Candidate)
    requires Buyable(c)
    ensures Cost(c, 0) == 0.0
  {
  }

  lemma QuantityCosts(c: Candidate, q: nat)
    requires Buyable(c)
    ensures Cost(c, q) >= 0.0 && (q > 0 ==> Cost(c, q) > 0.0)
  {
    if q > 0 {
      GrossIsPositive(q, c.price);
      assert c.fee(0) <= c.fee(q);
    }
  }

  lemma AffordFitsCash(c: Candidate, cash: real)
    requires cash >= 0.0
    ensures Charge(c, Afford(c, cash)) <= cash
    ensures (forall q: nat :: c.fee(q) >= 0.0) ==> Charge(c, Afford(c, cash)) >= 0.0
  {
    var q := Afford(c, cash);
    if q > 0 {
      var accepts := Affords(c.lot, c.price, cash, c.fee);
      var lots := Bisect(accepts, 0, MaxLots(c.Wish(), c.lot));
      assert lots > 0 && accepts(lots);
      GrossIsPositive(q, c.price);
    }
  }

  /** The budget holds for any fees at all: in total the buys never cost more than the cash, and with nonnegative
      fees they never cost less than nothing. */
  lemma {:induction false} GreedyStaysWithinBudget(candidates: seq<Candidate>, cash: real)
    requires cash >= 0.0
    ensures |Greedy(candidates, cash)| == |candidates| && Spending(candidates, Greedy(candidates, cash)) <= cash
    ensures (forall i, q: nat | 0 <= i < |candidates| :: candidates[i].fee(q) >= 0.0) ==>
              0.0 <= Spending(candidates, Greedy(candidates, cash))
  {
    hide Afford, Charge;
    if candidates != [] {
      var c, rest := candidates[0], candidates[1..];
      var left := cash - Charge(c, Afford(c, cash));
      AffordFitsCash(c, cash);
      GreedyStaysWithinBudget(rest, left);
      assert Greedy(candidates, cash)[1..] == Greedy(rest, left);
      if forall i, q: nat | 0 <= i < |candidates| :: candidates[i].fee(q) >= 0.0 {
        assert forall q: nat :: candidates[0].fee(q) >= 0.0;
        assert forall i | 0 <= i < |rest| :: rest[i] == candidates[i + 1];
      }
    }
  }

  /** The buys never exceed the budget in total, each is a whole number of lots within its wish, and what
      is left could not pay for one more lot of anything: upgrading any candidate to any larger lot
      multiple within its wish costs more than the cash that remains. */
  lemma {:induction false} GreedyLeavesNothingUseful(candidates: seq<Candidate>, cash: real)
    requires cash >= 0.0 && forall i | 0 <= i < |candidates| :: Buyable(candidates[i])
    ensures var quantities := Greedy(candidates, cash);
            && |quantities| == |candidates|
            && 0.0 <= Spending(candidates, quantities) <= cash
            && forall i | 0 <= i < |candidates| ::
                 && quantities[i] <= candidates[i].Wish() && quantities[i] % candidates[i].lot == 0
                 && forall more: nat | quantities[i] < more <= candidates[i].Wish() && more % candidates[i].lot == 0 ::
                      Cost(candidates[i], more) - Cost(candidates[i], quantities[i])
                      > cash - Spending(candidates, quantities)
  {
    hide Afford, Cost, Charge, Buyable, FeeGrows;
    if candidates != [] {
      var c, rest := candidates[0], candidates[1..];
      var q := Afford(c, cash);
      AffordIsWithinCash(c, cash);
      assert Greedy(candidates, cash)[1..] == Greedy(rest, cash - Charge(c, q));
      GreedyLeavesNothingUseful(rest, cash - Charge(c, q));
      var quantities := Greedy(candidates, cash);
      forall i | 0 <= i < |candidates|
        ensures quantities[i] <= candidates[i].Wish() && quantities[i] % candidates[i].lot == 0
        ensures forall more: nat | quantities[i] < more <= candidates[i].Wish() && more % candidates[i].lot == 0 ::
                  Cost(candidates[i], more) - Cost(candidates[i], quantities[i])
                  > cash - Spending(candidates, quantities)
      {
        if i > 0 {
          assert candidates[i] == rest[i - 1] && quantities[i] == Greedy(rest, cash - Charge(c, q))[i - 1];
        }
      }
    }
  }

  /** The fees of a sane schedule satisfy what the greedy argument needs. */
  lemma ScheduleFeesAreBuyable(c: Candidate, model: FeeModel, asset: Asset, onDate: Date)
    requires c.price > 0.0 && c.target > c.current
    requires Sane(model) && RatesOn(model, asset, onDate).Ok? && c.fee == TotalFee(model, asset, BUY, c.price, onDate)
    ensures Buyable(c)
  {
    TotalFeeGrows(model, asset, BUY, c.price, onDate);
    assert Gross(0, c.price) == 0.0;
  }

  function OrdersOf(candidates: seq<Candidate>, quantities: seq<nat>): seq<Order>
    requires |candidates| == |quantities|
  {
    if candidates == [] then []
    else
      var c, q := candidates[0], quantities[0];
      (if q > 0 then [Order(c.id, BUY, c.current, c.target, q)] else []) + OrdersOf(candidates[1..], quantities[1..])
  }

  /** The budget loop over the candidates in priority order. */
  method BuyGreedily(candidates: seq<Candidate>, budget: real) returns (r: Result<(seq<Order>, real)>)
    ensures |Greedy(candidates, budget)| == |candidates|
    ensures FeesFail(candidates, budget) ==> r == Err(UNCOVERED)
    ensures !FeesFail(candidates, budget) ==>
              r == Ok((OrdersOf(candidates, Greedy(candidates, budget)),
                       budget - Spending(candidates, Greedy(candidates, budget))))
  {
    hide Afford, Charge, Greedy, OrdersOf, Spending, AffordableQuantity, FeesFail;
    NothingToBuy(budget);
    var orders: seq<Order>, cash := [], budget;
    ghost var all := Greedy(candidates, budget);
    GreedyLength(candidates, budget);
    for k := 0 to |candidates|
      invariant |all| == |candidates| && all[k..] == Greedy(candidates[k..], cash)
      invariant orders + OrdersOf(candidates[k..], all[k..]) == OrdersOf(candidates, all)
      invariant cash - Spending(candidates[k..], all[k..]) == budget - Spending(candidates, all)
      invariant FeesFail(candidates[k..], cash) == FeesFail(candidates, budget)
    {
      var c := candidates[k];
      StepOfGreedy(candidates, all, k, cash);
      StepOfFees(candidates, k, cash);
      if !c.covered && cash > 0.0 && c.price > 0.0 && MaxLots(c.Wish(), c.lot) > 0 {
        return Err(UNCOVERED);
      }
      var quantity := ComputeAffordableQuantity(c.Wish(), c.lot, c.price, cash, c.fee);
      if quantity > 0 {
        cash := cash - (Gross(quantity, c.price) + c.fee(quantity));
        orders := orders + [Order(c.id, BUY, c.current, c.target, quantity)];
      }
    }
    assert candidates[|candidates|..] == [] && all[|candidates|..] == [];
    NothingToBuy(cash);
    assert orders + [] == orders;
    return Ok((orders, cash));
  }

  lemma StepOfFees(candidates: seq<Candidate>, k: nat, cash: real)
    requires k < |candidates|
    ensures var c := candidates[k]; var q := AffordableQuantity(c.Wish(), c.lot, c.price, cash, c.fee);
            FeesFail(candidates[k..], cash)
            <==> (!c.covered && cash > 0.0 && c.price > 0.0 && MaxLots(c.Wish(), c.lot) > 0)
                 || FeesFail(candidates[k + 1..], cash - Charge(c, q))
  {
    hide Charge, AffordableQuantity;
    assert candidates[k..][1..] == candidates[k + 1..] && candidates[k..][0] == candidates[k];
  }

  lemma NothingToBuy(cash: real)
    ensures Greedy([], cash) == [] && OrdersOf([], []) == [] && Spending([], []) == 0.0 && !FeesFail([], cash)
  {
  }

  lemma StepOfGreedy(candidates: seq<Candidate>, all: seq<nat>, k: nat, cash: real)
    requires k < |candidates| == |all| && all[k..] == Greedy(candidates[k..], cash)
    ensures var c := candidates[k]; var q := AffordableQuantity(c.Wish(), c.lot, c.price, cash, c.fee);
            && all[k] == q
            && all[k + 1..] == Greedy(candidates[k + 1..], cash - Charge(c, q))
            && OrdersOf(candidates[k..], all[k..])
               == (if q > 0 then [Order(c.id, BUY, c.current, c.target, q)] else [])
                 + OrdersOf(candidates[k + 1..], all[k + 1..])
            && Spending(candidates[k..], all[k..]) == Charge(c, q) + Spending(candidates[k + 1..], all[k + 1..])
            && Charge(c, q) == (if q > 0 then Gross(q, c.price) + c.fee(q) else 0.0)
  {
    assert candidates[k..][1..] == candidates[k + 1..] && all[k..][1..] == all[k + 1..];
    assert candidates[k..][0] == candidates[k] && all[k..][0] == all[k];
  }

  // ----- the whole plan

  function Held(positions: seq<Position>, id: Id): int {
    if positions == [] then 0
    else if positions[0].id == id then positions[0].quantity
    else Held(positions[1..], id)
  }

  function RelativeGap(amount: real, current: int, price: real, value: real): real {
    if value <= 0.0 then 0.0 else (amount - current as real * price) / value
  }

  function CandidateOf(market: Market, positions: seq<Position>, estimate: Estimate, t: Target): seq<Candidate> {
    if !Priced(market, t.id) || TargetQuantity(market, t) <= Held(positions, t.id) then []
    else
      var current, price := Held(positions, t.id), market.prices[t.id];
      [Candidate(
         t.id, RelativeGap(TargetAmount(market, t), current, price, market.value),
         if t.priority > 0 then t.priority else 1_000_000_000, current, TargetQuantity(market, t), price,
         market.rules[t.id].buyLot, (quantity: nat) => estimate.fee(t.id, quantity), estimate.covers(t.id))]
  }

  function CandidatesOf(
    market: Market, targets: seq<Target>, positions: seq<Position>, estimate: Estimate): seq<Candidate>
  {
    if targets == [] then []
    else
      var n := |targets| - 1;
      CandidatesOf(market, targets[..n], positions, estimate) + CandidateOf(market, positions, estimate, targets[n])
  }

  function ExitsFirst(): (Order, Order) -> bool {
    (x: Order, y: Order) =>
      if (x.target == 0) != (y.target == 0) then x.target == 0 else x.id <= y.id
  }

  function WidestGapFirst(): (Candidate, Candidate) -> bool {
    (x: Candidate, y: Candidate) =>
      if x.gap != y.gap then x.gap > y.gap
      else if x.priority != y.priority then x.priority < y.priority
      else x.id <= y.id
  }

  function Ranked(
    market: Market, targets: seq<Target>, positions: seq<Position>, estimate: Estimate): seq<Candidate>
  {
    Sort(WidestGapFirst(), CandidatesOf(market, targets, positions, estimate))
  }

  /** The sells, exits first, then the greedy buys from the budget. */
  function PlanOf(
    market: Market, targets: seq<Target>, positions: seq<Position>, budget: real, estimate: Estimate): Result<Plan>
  {
    var sells :- Sells(market, targets, positions);
    var ranked := Ranked(market, targets, positions, estimate);
    var quantities := Greedy(ranked, budget);
    GreedyLength(ranked, budget);
    if FeesFail(ranked, budget) then Err(UNCOVERED)
    else Ok(Plan(Sort(ExitsFirst(), sells), OrdersOf(ranked, quantities),
                 QuantizeFen(budget - Spending(ranked, quantities))))
  }

  /** A position to be sold whose lot rule is unknown. */
  predicate LacksRule(market: Market, targets: seq<Target>, p: Position) {
    p.quantity > Wanted(market, targets, p.id) && p.id in market.prices && p.id !in market.rules
  }

  method PlanRebalance(
    market: Market, targets: seq<Target>, positions: seq<Position>, budget: real, estimate: Estimate)
    returns (plan: Result<Plan>)
    ensures plan == PlanOf(market, targets, positions, budget, estimate)
    ensures plan.Err? <==> (exists i | 0 <= i < |positions| :: LacksRule(market, targets, positions[i]))
                           || FeesFail(Ranked(market, targets, positions, estimate), budget)
  {
    hide SellOf, CandidateOf, Wanted, Sort, Greedy, FeesFail, LacksRule, OrdersOf, Spending;
    SellsFailExactlyWhen(market, targets, positions);
    var sells: seq<Order> := [];
    for k := 0 to |positions|
      invariant Sells(market, targets, positions[..k]) == Ok(sells)
    {
      assert positions[..k + 1][..k] == positions[..k];
      var one := SellOf(market, Wanted(market, targets, positions[k].id), positions[k]);
      SellFailsExactlyWhen(market, targets, positions[k]);
      if one.Err? {
        return Err(one.code);
      }
      sells := sells + one.value;
    }
    assert positions[..|positions|] == positions;
    var candidates: seq<Candidate> := [];
    for k := 0 to |targets|
      invariant candidates == CandidatesOf(market, targets[..k], positions, estimate)
    {
      assert targets[..k + 1][..k] == targets[..k];
      candidates := candidates + CandidateOf(market, positions, estimate, targets[k]);
    }
    assert targets[..|targets|] == targets;
    var bought := BuyGreedily(Sort(WidestGapFirst(), candidates), budget);
    if bought.Err? {
      return Err(bought.code);
    }
    return Ok(Plan(Sort(ExitsFirst(), sells), bought.value.0, QuantizeFen(bought.value.1)));
  }

  lemma SellFailsExactlyWhen(market: Market, targets: seq<Target>, p: Position)
    ensures var one := SellOf(market, Wanted(market, targets, p.id), p);
            && (one.Err? <==> LacksRule(market, targets, p))
            && (one.Err? ==> one == Err("KeyError"))
  {
    hide Wanted, SellQuantity;
  }

  /** The sells fail exactly when some position to be sold has no lot rule. */
  lemma {:induction false} SellsFailExactlyWhen(market: Market, targets: seq<Target>, positions: seq<Position>)
    ensures Sells(market, targets, positions).Err? <==>
            exists i | 0 <= i < |positions| :: LacksRule(market, targets, positions[i])
    ensures Sells(market, targets, positions).Err? ==> Sells(market, targets, positions).code == "KeyError"
  {
    hide Wanted, SellOf, LacksRule;
    if positions != [] {
      var n := |positions| - 1;
      SellsFailExactlyWhen(market, targets, positions[..n]);
      SellFailsExactlyWhen(market, targets, positions[n]);
      if i :| 0 <= i < n && LacksRule(market, targets, positions[..n][i]) {
        assert LacksRule(market, targets, positions[i]);
      }
    }
  }

  lemma {:induction false} SellsAreSells(market: Market, targets: seq<Target>, positions: seq<Position>, o: Order)
    returns (p: Position)
    requires Sells(market, targets, positions).Ok? && o in Sells(market, targets, positions).value
    ensures p in positions && SellOf(market, Wanted(market, targets, p.id), p) == Ok([o])
  {
    hide Wanted, SellQuantity;
    var n := |positions| - 1;
    if o in Sells(market, targets, positions[..n]).value {
      p := SellsAreSells(market, targets, positions[..n], o);
    } else {
      p := positions[n];
    }
  }

  /** Every planned sale leaves the position at or above its target, and is covered by what is sellable. */
  lemma SalesStopAtTheTarget(market: Market, targets: seq<Target>, positions: seq<Position>, o: Order)
    returns (p: Position)
    requires Sells(market, targets, positions).Ok?
    requires o in Sort(ExitsFirst(), Sells(market, targets, positions).value)
    ensures p in positions && o.id == p.id && o.side == SELL && o.current == p.quantity
    ensures 0 < o.requested <= p.sellable && o.target == Wanted(market, targets, p.id) <= o.current - o.requested
  {
    hide Sells, Sort, SellQuantity, Wanted;
    SortKeepsMembers(ExitsFirst(), Sells(market, targets, positions).value, o);
    p := SellsAreSells(market, targets, positions, o);
    var lot := market.rules[p.id].sellLot;
    SalesAreSellable(p, Wanted(market, targets, p.id), lot);
    SellQuantityIsLargest(p, Wanted(market, targets, p.id), lot);
  }

  lemma SalesAreSellable(p: Position, wanted: nat, lot: Lot)
    requires p.quantity > wanted && SellQuantity(p, wanted, lot) > 0
    ensures p.sellable > 0
  {
    var available := Min(p.quantity, p.sellable);
    assert available == InLots(available, lot) + available % lot;
  }

  lemma {:induction false} CandidatesAreShort(
    market: Market, targets: seq<Target>, positions: seq<Position>, estimate: Estimate, c: Candidate)
    requires c in CandidatesOf(market, targets, positions, estimate)
    ensures c.current == Held(positions, c.id) < c.target
  {
    var n := |targets| - 1;
    if c in CandidatesOf(market, targets[..n], positions, estimate) {
      CandidatesAreShort(market, targets[..n], positions, estimate, c);
    }
  }

  lemma {:induction false} BuysComeFromCandidates(candidates: seq<Candidate>, quantities: seq<nat>, o: Order)
    returns (i: nat)
    requires |candidates| == |quantities| && o in OrdersOf(candidates, quantities)
    ensures i < |candidates| && quantities[i] > 0
    ensures o == Order(candidates[i].id, BUY, candidates[i].current, candidates[i].target, quantities[i])
  {
    var c := candidates[0];
    if quantities[0] > 0 && o == Order(c.id, BUY, c.current, c.target, quantities[0]) {
      i := 0;
    } else {
      i := BuysComeFromCandidates(candidates[1..], quantities[1..], o);
      i := i + 1;
    }
  }

  /** Every planned buy leaves the position at or below its target, and all of them fit the budget. */
  lemma BuysStopAtTheTarget(
    market: Market, targets: seq<Target>, positions: seq<Position>, budget: real, estimate: Estimate, o: Order)
    requires budget >= 0.0
    requires var ranked := Ranked(market, targets, positions, estimate);
             && (forall i | 0 <= i < |ranked| :: Buyable(ranked[i]))
             && |Greedy(ranked, budget)| == |ranked| && o in OrdersOf(ranked, Greedy(ranked, budget))
    ensures o.side == BUY && o.current == Held(positions, o.id) && 0 < o.requested
            && o.current + o.requested <= o.target
    ensures var ranked := Ranked(market, targets, positions, estimate);
            0.0 <= Spending(ranked, Greedy(ranked, budget)) <= budget
  {
    hide Buyable, Sort;
    var ranked := Ranked(market, targets, positions, estimate);
    var i := BuysComeFromCandidates(ranked, Greedy(ranked, budget), o);
    GreedyLeavesNothingUseful(ranked, budget);
    WidestGapIsTotal();
    SortKeepsMembers(WidestGapFirst(), CandidatesOf(market, targets, positions, estimate), ranked[i]);
    CandidatesAreShort(market, targets, positions, estimate, ranked[i]);
  }

  lemma WidestGapIsTotal()
    ensures TotalPreorder(WidestGapFirst())
  {
  }
}
