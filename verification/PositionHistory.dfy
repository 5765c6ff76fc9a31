/** What the ledger says of each field of a tracked position: what fills set, what they leave alone, and what
    no event but a fill can change. */
module PositionHistory {
  import opened Base
  import opened Numeric
  import opened Execution
  import opened Accounts
  import opened Reducer
  import opened Engine
  import opened Books
  import opened Cycles

  /** The event trades shares of the security. */
  predicate Fills(e: Event, s: Id) {
    e.TradeFilled? && e.record.security == s && e.record.filled > 0
  }

  ghost predicate NoFillFrom(ledger: seq<Event>, i: nat, s: Id) {
    forall k | i <= k < |ledger| :: !Fills(ledger[k], s)
  }

  /** The price of a share times the shares held. */
  function Worth(price: real, quantity: int): real {
    price * quantity as real
  }

  /** The last purchase's price, as a value of the whole position, is the same in both. */
  ghost predicate SameBuyValue(p: PositionState, q: PositionState) {
    match p.lastBuyPrice
    case None => q.lastBuyPrice == None
    case Some(price) => q.lastBuyPrice.Some? && Worth(q.lastBuyPrice.value, q.quantity) == Worth(price, p.quantity)
  }

  /** What only fills change. */
  ghost predicate SameTrades(p: PositionState, q: PositionState) {
    && q.lastSide == p.lastSide && q.lastDate == p.lastDate && q.lastQuantity == p.lastQuantity
    && q.lastPrice == p.lastPrice && q.basis == p.basis && q.cumulativeBuys == p.cumulativeBuys
    && (q.exitBase.Some? <==> p.exitBase.Some?)
  }

  // ----- one event at a time

  lemma Extended(capital: real, ledger: seq<Event>, e: Event)
    requires Replay(capital, ledger + [e]).Ok?
    ensures Replay(capital, ledger).Ok?
    ensures Replay(capital, ledger + [e]) == Apply(Replay(capital, ledger).value, e)
  {
    assert (ledger + [e])[..|ledger|] == ledger;
  }

  /** A purchase adds its cost, sets the last purchase and clears the exit history. */
  lemma PurchaseSets(capital: real, ledger: seq<Event>, r: Record)
    requires r.filled > 0 && r.side == BUY && Replay(capital, ledger + [TradeFilled(r)]).Ok?
    ensures var p, q := Tracking(capital, ledger, r.security), Tracking(capital, ledger + [TradeFilled(r)], r.security);
            && q.quantity == p.quantity + r.filled && q.basis == p.basis + r.gross + r.fees.Total()
            && q.lastBuyPrice == Some(r.price) && q.lastPrice == Some(r.price)
            && q.lastSide == Some(BUY) && q.lastDate == Some(r.date) && q.lastQuantity == r.filled
            && q.exitBase == None && q.exitSold == 0.0
            && q.cumulativeBuys == r.gross + if p.quantity == 0 then 0.0 else p.cumulativeBuys
  {
    Extended(capital, ledger, TradeFilled(r));
  }

  /** A sale leaves the last purchase price and the cost per share alone, and counts toward the exit from the base
      that was held when selling began. */
  lemma SaleKeepsPriceAndCost(capital: real, ledger: seq<Event>, r: Record)
    requires r.filled > 0 && r.side == SELL && Replay(capital, ledger + [TradeFilled(r)]).Ok?
    ensures var p, q := Tracking(capital, ledger, r.security), Tracking(capital, ledger + [TradeFilled(r)], r.security);
            && q.quantity == p.quantity - r.filled >= 0 && q.lastBuyPrice == p.lastBuyPrice
            && q.lastPrice == Some(r.price)
            && q.lastSide == Some(SELL) && q.lastDate == Some(r.date) && q.lastQuantity == r.filled
            && (q.quantity == 0 ==> q.basis == 0.0 && q.exitBase == None && q.exitSold == 0.0)
            && (q.quantity > 0 ==> Worth(q.basis, p.quantity) == Worth(p.basis, q.quantity))
            && (q.quantity > 0 && p.exitBase.Some? ==>
                  q.exitBase == p.exitBase && q.exitSold == p.exitSold + r.filled as real)
            && (q.quantity > 0 && p.exitBase == None && p.lastSide != Some(SELL) ==>
                  q.exitBase == Some(p.quantity as real) && q.exitSold == p.exitSold + r.filled as real)
  {
    Extended(capital, ledger, TradeFilled(r));
    var p := Tracking(capital, ledger, r.security);
    if p.quantity > r.filled {
      CostPerShareStays(p.basis, p.quantity, r.filled);
    }
  }

  lemma CostPerShareStays(basis: real, quantity: int, filled: int)
    requires 0 < filled < quantity
    ensures Worth(basis - basis / quantity as real * filled as real, quantity) == Worth(basis, quantity - filled)
  {
    var perShare := basis / quantity as real;
    DivideThenMultiply(basis, quantity as real);
    assert perShare * quantity as real == basis;
    calc {
      (basis - perShare * filled as real) * quantity as real;
      basis * quantity as real - perShare * quantity as real * filled as real;
      basis * quantity as real - basis * filled as real;
      basis * (quantity - filled) as real;
    }
  }

  /** Any other event: trades and cost stay, the last purchase keeps its value, the exit keeps its base over what
      was sold. */
  lemma OtherEventsKeep(capital: real, ledger: seq<Event>, e: Event, s: Id)
    requires !Fills(e, s) && Replay(capital, ledger + [e]).Ok?
    ensures var p, q := Tracking(capital, ledger, s), Tracking(capital, ledger + [e], s);
            && SameTrades(p, q) && q.quantity >= p.quantity && (p.quantity > 0 ==> SameBuyValue(p, q))
            && (q != p ==> e.StockDistributionApplied? || e.SplitApplied?)
  {
    Extended(capital, ledger, e);
    var p := Tracking(capital, ledger, s);
    match e {
      case StockDistributionApplied(_, t, quantity) =>
        if t == s {
          AdjustmentKeeps(p, quantity);
        }
      case SplitApplied(_, t, quantity, _) =>
        if t == s {
          AdjustmentKeeps(p, quantity);
        }
      case TradeFilled(_) =>
      case _ =>
    }
  }

  lemma AdjustmentKeeps(p: PositionState, quantity: int)
    requires quantity >= 0
    ensures var q := Adjusted(p, quantity);
            SameTrades(p, q) && q.quantity >= p.quantity && (p.quantity > 0 ==> SameBuyValue(p, q))
  {
    if p.quantity > 0 && p.lastBuyPrice.Some? {
      ValueIsKept(p.lastBuyPrice.value, p.quantity, p.quantity + quantity);
    }
    hide QuantizeTrillionth;
  }

  lemma ValueIsKept(price: real, quantity: int, next: int)
    requires next > 0
    ensures Worth(Rescaled(price, quantity, next), next) == Worth(price, quantity)
  {
    DivideThenMultiply(price * quantity as real, next as real);
  }

  /** An adjustment rescales what was sold of a running exit with the position, up to rounding at the twelfth
      decimal, and moves the base along. */
  lemma AdjustmentRescalesTheExit(p: PositionState, quantity: int)
    requires quantity >= 0 && p.quantity > 0 && p.exitBase.Some?
    ensures var q := Adjusted(p, quantity);
            && q.exitBase == Some(q.quantity as real + q.exitSold)
            && -0.0000000000005 <= q.exitSold - Worth(p.exitSold, q.quantity) / p.quantity as real <= 0.0000000000005
  {
    hide QuantizeTrillionth, Rescaled;
    var q := Adjusted(p, quantity);
    TrillionthIsClose(Rescaled(p.exitSold, q.quantity, p.quantity));
    RescaledIs(p.exitSold, q.quantity, p.quantity);
  }

  lemma RescaledIs(x: real, to: int, from: int)
    requires from != 0
    ensures Rescaled(x, to, from) == Worth(x, to) / from as real
  {
  }

  lemma TrillionthIsClose(x: real)
    ensures -0.0000000000005 <= QuantizeTrillionth(x) - x <= 0.0000000000005
  {
  }

  // ----- between two fills

  /** Between fills nothing but adjustments touches a position. Trades, cost and cycle purchases stay as they were,
      and while shares are held the last purchase price times the quantity does not change. */
  lemma {:induction false} BetweenFills(capital: real, ledger: seq<Event>, i: nat, s: Id)
    requires i <= |ledger| && Replay(capital, ledger).Ok? && NoFillFrom(ledger, i, s)
    ensures Replay(capital, ledger[..i]).Ok?
    ensures var p, q := Tracking(capital, ledger[..i], s), Tracking(capital, ledger, s);
            SameTrades(p, q) && q.quantity >= p.quantity && (p.quantity > 0 ==> SameBuyValue(p, q))
    decreases |ledger|
  {
    hide Replay, Worth;
    if i == |ledger| {
      assert ledger[..i] == ledger;
    } else {
      var n := |ledger| - 1;
      assert ledger[..n] + [ledger[n]] == ledger && ledger[..n][..i] == ledger[..i];
      Extended(capital, ledger[..n], ledger[n]);
      OtherEventsKeep(capital, ledger[..n], ledger[n], s);
      BetweenFills(capital, ledger[..n], i, s);
    }
  }

  /** The same of every run: between any two moments of its ledger without a fill of the security, and with the
      price of the purchase itself if that is what came first. */
  lemma RunsKeepTheLastPurchase(inputs: Inputs, days: seq<Date>, i: nat, j: nat, s: Id)
    requires SoundInputs(inputs) && Increasing(days) && RunDays(inputs, days).Ok?
    requires i <= j <= |RunDays(inputs, days).value.account.ledger|
    requires NoFillFrom(RunDays(inputs, days).value.account.ledger[..j], i, s)
    ensures var ledger := RunDays(inputs, days).value.account.ledger;
            var p, q := Tracking(inputs.capital, ledger[..i], s), Tracking(inputs.capital, ledger[..j], s);
            && Replay(inputs.capital, ledger[..i]).Ok? && Replay(inputs.capital, ledger[..j]).Ok?
            && SameTrades(p, q) && q.quantity >= p.quantity && (p.quantity > 0 ==> SameBuyValue(p, q))
            && (i > 0 && Fills(ledger[i - 1], s) && ledger[i - 1].record.side == BUY ==>
                  p.lastBuyPrice == Some(ledger[i - 1].record.price))
  {
    hide RunDays, Replay, Worth;
    EveryRunIsGood(inputs, days, if days == [] then 0 else days[|days| - 1]);
    var ledger := RunDays(inputs, days).value.account.ledger;
    GoodRunsReplay(inputs, days);
    PrefixesReplay(inputs.capital, ledger, j);
    BetweenFills(inputs.capital, ledger[..j], i, s);
    assert ledger[..j][..i] == ledger[..i];
    if i > 0 && Fills(ledger[i - 1], s) && ledger[i - 1].record.side == BUY {
      assert ledger[..i - 1] + [ledger[i - 1]] == ledger[..i];
      PurchaseSets(inputs.capital, ledger[..i - 1], ledger[i - 1].record);
    }
  }

  lemma GoodRunsReplay(inputs: Inputs, days: seq<Date>)
    requires SoundInputs(inputs) && Increasing(days) && RunDays(inputs, days).Ok?
    ensures Replay(inputs.capital, RunDays(inputs, days).value.account.ledger).Ok?
  {
    hide RunDays;
    EveryRunIsGood(inputs, days, if days == [] then 0 else days[|days| - 1]);
  }

  lemma {:induction false} PrefixesReplay(capital: real, ledger: seq<Event>, j: nat)
    requires j <= |ledger| && Replay(capital, ledger).Ok?
    ensures Replay(capital, ledger[..j]).Ok?
    decreases |ledger|
  {
    hide Replay;
    if j == |ledger| {
      assert ledger[..j] == ledger;
    } else {
      var n := |ledger| - 1;
      assert ledger[..n] + [ledger[n]] == ledger && ledger[..n][..j] == ledger[..j];
      Extended(capital, ledger[..n], ledger[n]);
      PrefixesReplay(capital, ledger[..n], j);
    }
  }

  // ----- what the fold refuses

  /** The date of the last valuation or fill. */
  function LastDated(ledger: seq<Event>): Option<Date> {
    if ledger == [] then None
    else
      match ledger[|ledger| - 1]
      case ValuationRecorded(date, _) => Some(date)
      case TradeFilled(r) => if r.filled > 0 then Some(r.date) else LastDated(ledger[..|ledger| - 1])
      case _ => LastDated(ledger[..|ledger| - 1])
  }

  lemma {:induction false} AsOfIsLastDated(capital: real, ledger: seq<Event>)
    requires Replay(capital, ledger).Ok?
    ensures Replay(capital, ledger).value.asOf == LastDated(ledger) && Replay(capital, ledger).value.capital == capital
  {
    hide Bought, Sold, Adjusted, ExitConsistent;
    if ledger != [] {
      var n := |ledger| - 1;
      assert ledger[..n] + [ledger[n]] == ledger;
      Extended(capital, ledger[..n], ledger[n]);
      AsOfIsLastDated(capital, ledger[..n]);
    }
  }

  predicate Unacceptable(capital: real, ledger: seq<Event>, e: Event) {
    match e
    case CashInitialized(amount) => amount != capital
    case TradeFilled(r) =>
      || (LastDated(ledger).Some? && r.date < LastDated(ledger).value)
      || (r.filled > 0 && r.side == SELL && LedgerShares(ledger, r.security) < r.filled)
    case StockDistributionApplied(_, _, quantity) => quantity < 0
    case SplitApplied(_, _, quantity, _) => quantity < 0
    case _ => false
  }

  /** The next event of a ledger of real fills is refused exactly when it opens with other capital, is a fill dated
      before the last one or before the last valuation, sells more than the ledger shows, or takes shares away. */
  lemma EventIsRefusedExactlyWhen(capital: real, ledger: seq<Event>, e: Event)
    requires Replay(capital, ledger).Ok? && RealFills(ledger)
    ensures Replay(capital, ledger + [e]).Err? <==> Unacceptable(capital, ledger, e)
  {
    hide Bought, Sold, Adjusted, LedgerShares, LastDated, RealFills;
    AsOfIsLastDated(capital, ledger);
    LedgerAppend(capital, ledger, e);
    match e {
      case TradeFilled(r) =>
        ReplayTracksShares(capital, ledger, r.security);
        if 0 < r.filled && r.side == BUY {
          BoughtIsTracked(Tracking(capital, ledger, r.security), r);
        } else if 0 < r.filled <= LedgerShares(ledger, r.security) {
          SoldIsTracked(Tracking(capital, ledger, r.security), r);
        }
      case StockDistributionApplied(_, s, quantity) =>
        ReplayTracksShares(capital, ledger, s);
        if quantity >= 0 {
          AdjustedIsTracked(Tracking(capital, ledger, s), quantity);
        }
      case SplitApplied(_, s, quantity, _) =>
        ReplayTracksShares(capital, ledger, s);
        if quantity >= 0 {
          AdjustedIsTracked(Tracking(capital, ledger, s), quantity);
        }
      case _ =>
    }
  }
}
