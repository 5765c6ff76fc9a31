/** When the staged strategy sells, enters, adds or does nothing, in prices, holdings and parameters. */
module Decisions {
  import opened Base
  import opened Numeric
  import opened Reducer
  import opened StagedDrawdown
  import S = Sizing

  // ----- the conditions

  /** A price less the given rate. */
  function Lowered(price: real, rate: real): real {
    price * (1.0 - rate)
  }

  /** At this close the position is worth its cost plus the given gain. */
  predicate Gained(p: PositionState, close: real, rate: real) {
    close * p.quantity as real >= p.basis * (1.0 + rate)
  }

  /** Day `i` of a window closed below the day before. */
  predicate Fell(w: seq<real>, i: int) {
    0 < i < |w| && w[i] < w[i - 1]
  }

  function Falls(w: seq<real>): set<int> {
    set i | 0 < i < |w| && Fell(w, i)
  }

  /** Day `i` of a window lost no more than the rate. */
  predicate LostAtMost(w: seq<real>, i: int, rate: real) {
    0 < i < |w| && w[i] >= Lowered(w[i - 1], rate)
  }

  /** Over the window the price fell far enough, on enough days, and on none of them too fast. */
  predicate Declined(v: Parameters, w: seq<real>) {
    && |w| >= 2
    && w[|w| - 1] <= Lowered(w[0], v.declineThreshold)
    && (forall i | 0 < i < |w| :: LostAtMost(w, i, v.crashThreshold))
    && |Falls(w)| >= v.minimumDownDays
  }

  /** The lookback window that ended `age` trading days ago. */
  function WindowEnding(v: Parameters, h: History, age: nat): seq<real> {
    var end := |h.closes| - age;
    if 0 <= end - v.lookback <= end <= |h.closes| then h.closes[end - v.lookback..end] else []
  }

  /** The trading day `age` days ago lies before the last trade. */
  predicate Stale(h: History, p: PositionState, age: int) {
    0 <= age < |h.days| && p.lastDate.Some? && h.days[|h.days| - 1 - age] < p.lastDate.value
  }

  /** No day since the end of that window lies before the last trade. */
  predicate SinceLastTrade(h: History, p: PositionState, age: nat) {
    forall k | 0 <= k <= age :: !Stale(h, p, k)
  }

  /** The price turned up: above the day before and above its moving average. */
  predicate TurnedUp(v: Parameters, h: History) {
    var n := |h.closes|;
    && 2 <= v.maDays <= n
    && h.closes[n - 1] > h.closes[n - 2]
    && h.closes[n - 1] * v.maDays as real > Sum(h.closes[n - v.maDays..])
  }

  ghost predicate EntryDue(v: Parameters, h: History, p: PositionState) {
    && p.quantity == 0
    && if v.rebound then
         TurnedUp(v, h)
         && exists age: nat | age <= v.windowDays :: SinceLastTrade(h, p, age) && Declined(v, WindowEnding(v, h, age))
       else Declined(v, WindowEnding(v, h, 0))
  }

  /** The close is far enough below the last purchase, and the last trade does not forbid adding. */
  predicate AddDue(v: Parameters, p: PositionState, close: real) {
    && p.quantity > 0
    && p.lastBuyPrice.Some? && close <= Lowered(p.lastBuyPrice.value, v.addThreshold)
    && (p.lastSide == Some(BUY) || (p.lastSide == Some(SELL) && v.addAfterSell))
  }

  /** What the capital fraction leaves of a held cycle's budget. */
  function BudgetLeft(v: Parameters, capital: real, p: PositionState): real {
    capital * v.maxFraction - p.cumulativeBuys
  }

  /** The number of profit levels the close has reached. */
  predicate LevelsReached(v: Parameters, p: PositionState, close: real, tier: nat) {
    && tier <= |v.levels|
    && (tier > 0 ==> Gained(p, close, v.levels[tier - 1]))
    && forall i | tier <= i < |v.levels| :: !Gained(p, close, v.levels[i])
  }

  /** A reached level still has shares to sell: the last one always, a lower one while less was sold than its share
      of the base in whole lots, or when that share is less than a lot and nothing was sold. */
  ghost predicate TierDue(v: Parameters, p: PositionState, close: real, lot: int)
    requires lot > 0 && |v.levels| == |v.fractions|
  {
    exists tier: nat | 0 < tier <= |v.levels| && LevelsReached(v, p, close, tier) ::
      tier == |v.levels|
      || p.exitSold < TierTarget(v, p, tier, lot) as real
      || (TierTarget(v, p, tier, lot) == 0 && p.exitSold == 0.0)
  }

  ghost predicate SellDue(v: Parameters, p: PositionState, close: real, lot: int)
    requires |v.levels| == |v.fractions|
  {
    && p.quantity > 0
    && if v.tiered then lot > 0 && TierDue(v, p, close, lot) else Gained(p, close, v.takeProfit)
  }

  // ----- the returns behind them

  lemma ReturnAtMost(now: real, before: real, rate: real)
    requires before > 0.0
    ensures now / before - 1.0 <= rate <==> now <= before * (1.0 + rate)
    ensures now / before - 1.0 >= rate <==> now >= before * (1.0 + rate)
  {
    var q := now / before;
    DivideThenMultiply(now, before);
    ScaleQuotient(q, 1.0 + rate, before, now);
  }

  lemma LossAtMost(now: real, before: real, rate: real)
    requires before > 0.0
    ensures now / before - 1.0 <= -rate <==> now <= Lowered(before, rate)
    ensures now / before - 1.0 >= -rate <==> now >= Lowered(before, rate)
  {
    ReturnAtMost(now, before, -rate);
    assert 1.0 + -rate == 1.0 - rate;
  }

  lemma {:induction false} WorstReturnBounds(w: seq<real>, rate: real)
    requires |w| >= 2 && forall i | 0 <= i < |w| :: w[i] > 0.0
    ensures WorstReturn(w) >= -rate <==> forall i | 0 < i < |w| :: LostAtMost(w, i, rate)
  {
    hide LostAtMost;
    var n := |w|;
    LastDayBounds(w, rate);
    if n > 2 {
      var init := w[..n - 1];
      WorstReturnBounds(init, rate);
      forall i | 0 < i < n - 1
        ensures LostAtMost(init, i, rate) <==> LostAtMost(w, i, rate)
      {
        EarlierDaysStay(w, i, rate);
      }
    }
  }

  lemma LastDayBounds(w: seq<real>, rate: real)
    requires |w| >= 2 && w[|w| - 2] > 0.0
    ensures w[|w| - 1] / w[|w| - 2] - 1.0 >= -rate <==> LostAtMost(w, |w| - 1, rate)
  {
    hide Lowered;
    LossAtMost(w[|w| - 1], w[|w| - 2], rate);
  }

  lemma EarlierDaysStay(w: seq<real>, i: int, rate: real)
    requires 0 < i < |w| - 1
    ensures LostAtMost(w[..|w| - 1], i, rate) <==> LostAtMost(w, i, rate)
    ensures Fell(w[..|w| - 1], i) <==> Fell(w, i)
  {
  }

  lemma {:induction false} DownDaysAreFalls(w: seq<real>)
    ensures DownDays(w) == |Falls(w)|
  {
    var n := |w|;
    if n >= 2 {
      var init := w[..n - 1];
      DownDaysAreFalls(init);
      forall i | 0 < i < n - 1
        ensures Fell(init, i) <==> Fell(w, i)
      {
        EarlierDaysStay(w, i, 0.0);
      }
      if w[n - 1] < w[n - 2] {
        assert Falls(w) == Falls(init) + {n - 1};
      } else {
        assert Falls(w) == Falls(init);
      }
    } else {
      assert Falls(w) == {};
    }
  }

  lemma SlowDeclineIsDeclined(v: Parameters, w: seq<real>)
    requires |w| >= 2 && forall i | 0 <= i < |w| :: w[i] > 0.0
    ensures SlowDecline(v, w) <==> Declined(v, w)
  {
    hide Lowered, LostAtMost, Falls, WorstReturn, DownDays;
    LossAtMost(w[|w| - 1], w[0], v.declineThreshold);
    WorstReturnBounds(w, v.crashThreshold);
    DownDaysAreFalls(w);
  }

  lemma SetupIsDeclined(v: Parameters, h: History, age: nat)
    requires ValidParameters(v) && UsableHistory(v, h) && v.rebound && age <= v.windowDays
    ensures SetupAt(v, h, age) <==> Declined(v, WindowEnding(v, h, age))
  {
    var w := WindowEnding(v, h, age);
    var index := |h.closes| - 1 - age;
    assert w == h.closes[index - v.lookback + 1..index + 1];
    SlowDeclineIsDeclined(v, w);
  }

  /** Some window not yet scanned qualifies, with no day before the last trade on the way to it. */
  ghost predicate SetupFrom(v: Parameters, h: History, p: PositionState, from: nat)
    requires ValidParameters(v) && UsableHistory(v, h) && v.rebound
  {
    exists age: nat | from <= age <= v.windowDays ::
      SetupAt(v, h, age) && forall k: nat | from <= k <= age :: !Stale(h, p, k)
  }

  lemma {:induction false} ScanFindsASetup(v: Parameters, h: History, p: PositionState, age: nat)
    requires ValidParameters(v) && UsableHistory(v, h) && v.rebound
    ensures SetupAge(v, h, p, age).Some? <==> SetupFrom(v, h, p, age)
    decreases v.windowDays + 1 - age
  {
    hide SetupAt;
    if age <= v.windowDays {
      assert Stale(h, p, age) <==> BeforeLastTrade(h, p, age);
    }
    if age <= v.windowDays && !Stale(h, p, age) && !SetupAt(v, h, age) {
      ScanFindsASetup(v, h, p, age + 1);
      if SetupFrom(v, h, p, age + 1) {
        var later: nat :| age + 1 <= later <= v.windowDays && SetupAt(v, h, later)
                          && forall k: nat | age + 1 <= k <= later :: !Stale(h, p, k);
        assert forall k: nat | age <= k <= later :: !Stale(h, p, k);
      }
    }
  }

  lemma SetupMeansSinceLastTrade(v: Parameters, h: History, p: PositionState)
    requires ValidParameters(v) && UsableHistory(v, h) && v.rebound
    ensures SetupAge(v, h, p, 0).Some? <==>
            exists age: nat | age <= v.windowDays :: SinceLastTrade(h, p, age) && Declined(v, WindowEnding(v, h, age))
  {
    ScanFindsASetup(v, h, p, 0);
    forall age: nat | age <= v.windowDays
      ensures SetupAt(v, h, age) <==> Declined(v, WindowEnding(v, h, age))
    {
      SetupIsDeclined(v, h, age);
    }
    hide SetupAt, Declined, WindowEnding, Stale;
    if SetupFrom(v, h, p, 0) {
      var age: nat :| age <= v.windowDays && SetupAt(v, h, age) && forall k: nat | k <= age :: !Stale(h, p, k);
      assert SinceLastTrade(h, p, age);
    }
  }

  lemma AboveAverage(close: real, total: real, days: int)
    requires days > 0
    ensures close > total / days as real <==> close * days as real > total
  {
    var q := total / days as real;
    DivideThenMultiply(total, days as real);
    ScaleQuotient(q, close, days as real, total);
  }

  lemma EntryIsDue(v: Parameters, h: History, p: PositionState)
    requires ValidParameters(v) && UsableHistory(v, h)
    ensures p.quantity == 0 && EntryAllowed(v, h, p) <==> EntryDue(v, h, p)
  {
    if v.rebound {
      ReboundIsDue(v, h, p);
    } else {
      hide Declined, SlowDecline;
      var w := h.closes[|h.closes| - v.lookback..];
      assert WindowEnding(v, h, 0) == w;
      SlowDeclineIsDeclined(v, w);
    }
  }

  lemma ReboundIsDue(v: Parameters, h: History, p: PositionState)
    requires ValidParameters(v) && UsableHistory(v, h) && v.rebound
    ensures ReboundConfirmed(v, h, p) <==> EntryDue(v, h, p)
  {
    hide Declined, WindowEnding, SinceLastTrade, SetupAge, Sum;
    var n := |h.closes|;
    SetupMeansSinceLastTrade(v, h, p);
    AboveAverage(h.closes[n - 1], Sum(h.closes[n - v.maDays..]), v.maDays);
  }

  // ----- profits

  lemma ProfitIsGained(p: PositionState, close: real, rate: real)
    requires p.basis > 0.0
    ensures Profit(close, p) >= rate <==> Gained(p, close, rate)
  {
    ReturnAtMost(close * p.quantity as real, p.basis, rate);
  }

  lemma TierOrderExists(remaining: real, target: int, sold: real, lot: int)
    requires lot > 0 && remaining == target as real - sold
    ensures TierOrder(remaining, target, sold, lot).Some? <==> sold < target as real || (target == 0 && sold == 0.0)
  {
  }

  lemma TieredSellIsDue(v: Parameters, p: PositionState, close: real, lot: int)
    requires ValidParameters(v) && p.quantity > 0 && p.basis > 0.0 && lot > 0
    requires TieredExit(v, p, Profit(close, p), lot).Ok?
    ensures TieredExit(v, p, Profit(close, p), lot).value.Some? <==> TierDue(v, p, close, lot)
  {
    var profit := Profit(close, p);
    var tier := ReachedTier(v.levels, profit);
    forall i | 0 <= i < |v.levels|
      ensures profit >= v.levels[i] <==> Gained(p, close, v.levels[i])
    {
      ProfitIsGained(p, close, v.levels[i]);
    }
    assert LevelsReached(v, p, close, tier);
    LevelsAreReachedOnce(v, p, close, tier);
    if 0 < tier < |v.levels| {
      var target := TierTarget(v, p, tier, lot);
      TierOrderExists(target as real - p.exitSold, target, p.exitSold, lot);
    }
    hide Profit, ReachedTier, LevelsReached, TierTarget, TierOrder, ValidParameters;
  }

  lemma LevelsAreReachedOnce(v: Parameters, p: PositionState, close: real, tier: nat)
    requires LevelsReached(v, p, close, tier)
    ensures forall other: nat | LevelsReached(v, p, close, other) :: other == tier
  {
  }

  lemma SellIsDue(v: Parameters, p: PositionState, close: real, lot: int)
    requires ValidParameters(v) && (p.quantity > 0 ==> p.basis > 0.0)
    requires SellSizing(v, p, close, lot).Ok?
    ensures SellSizing(v, p, close, lot).value.Some? <==> SellDue(v, p, close, lot)
    ensures SellSizing(v, p, close, lot).value.Some? && !v.tiered ==>
              SellSizing(v, p, close, lot).value.value == CurrentPositionFraction(v.sellFraction)
  {
    if p.quantity > 0 {
      ProfitIsGained(p, close, v.takeProfit);
      if v.tiered && lot > 0 {
        TieredSellIsDue(v, p, close, lot);
      }
    }
    hide Profit, Gained, ValidParameters, TierDue;
  }

  // ----- the decision

  /** The decision of a day, exactly. A SELL falls when the position has gained the take-profit rate, or in tiered
      mode when a reached level has shares left to sell; without tiers it sells the configured fraction. Otherwise
      an entry falls when the strategy is flat and the window declined, in rebound mode some recent window that the
      price has turned up from. Otherwise an addition falls when the price is far enough below the last purchase, the
      last trade allows it and budget is left, and it orders the smaller of the standard notional and that budget.
      Otherwise nothing is ordered. */
  lemma DecisionExactly(v: Parameters, capital: real, p: PositionState, h: History)
    requires ValidParameters(v) && Decide(v, capital, p, h).Ok? && p.quantity >= 0
    ensures var close := h.raw[|h.raw| - 1];
            var decision := Decide(v, capital, p, h).value;
            var sells, enters := SellDue(v, p, close, h.sellLot), EntryDue(v, h, p);
            var adds := !sells && AddDue(v, p, close) && BudgetLeft(v, capital, p) > 0.0;
            && (decision.Some? <==> sells || enters || adds)
            && (sells || enters || adds ==>
                  && decision.value.security == v.security
                  && (decision.value.side == SELL <==> sells)
                  && (sells && !v.tiered ==> decision.value.sizing == CurrentPositionFraction(v.sellFraction))
                  && (!sells ==>
                        && BuyNotional(decision.value.sizing, capital).Ok?
                        && BuyNotional(decision.value.sizing, capital).value
                           == if enters then capital * v.buyFraction
                              else MinReal(capital * v.buyFraction, BudgetLeft(v, capital, p))))
  {
    hide SellSizing, EntryAllowed, SellDue, EntryDue, AddAllowed, AddDue, RemainingBudget, BudgetLeft;
    hide ValidParameters, UsableHistory;
    HistoryHasACloseAndLevels(v, h);
    var close := h.raw[|h.raw| - 1];
    SellIsDue(v, p, close, h.sellLot);
    EntryIsDue(v, h, p);
    AdditionIsDue(v, capital, p, close);
    OrderedNotional(v, capital, MaxReal(0.0, BudgetLeft(v, capital, p)));
    hide BuyNotional;
  }

  lemma OrderedNotional(v: Parameters, capital: real, remaining: real)
    ensures var standard := BuyNotional(InitialCapitalFraction(v.buyFraction), capital);
            standard.Ok? && standard.value == capital * v.buyFraction
    ensures BuyNotional(FixedNotional(remaining), capital) == Ok(remaining)
  {
    StandardNotional(InitialCapitalFraction(v.buyFraction), capital);
    SameProduct(capital, InitialCapitalFraction(v.buyFraction).fraction, v.buyFraction);
  }

  lemma StandardNotional(sizing: Sizing, capital: real)
    requires sizing.InitialCapitalFraction?
    ensures BuyNotional(sizing, capital).Ok? && BuyNotional(sizing, capital).value == capital * sizing.fraction
  {
  }

  lemma SameProduct(x: real, y: real, z: real)
    requires y == z
    ensures x * y == x * z
  {
  }

  lemma HistoryHasACloseAndLevels(v: Parameters, h: History)
    requires ValidParameters(v)
    ensures UsableHistory(v, h) ==> |h.raw| >= 2
    ensures |v.levels| == |v.fractions|
  {
  }

  lemma AdditionIsDue(v: Parameters, capital: real, p: PositionState, close: real)
    ensures AddAllowed(v, p, close) <==> AddDue(v, p, close)
    ensures AddDue(v, p, close) ==>
              p.quantity > 0 && RemainingBudget(v, capital, p) == MaxReal(0.0, BudgetLeft(v, capital, p))
  {
  }

  /** When it raises instead: incomplete history, a state that cannot be used, or in tiered mode a held position
      without a lot rule. */
  lemma DecisionFailsExactlyWhen(v: Parameters, capital: real, p: PositionState, h: History)
    requires ValidParameters(v) && p.quantity >= 0
    ensures Decide(v, capital, p, h).Err? <==>
            || !UsableHistory(v, h)
            || (p.quantity > 0
                && (p.basis <= 0.0
                    || (v.tiered && ((p.exitBase == None && p.lastSide == Some(SELL)) || h.sellLot <= 0))))
  {
    hide ReachedTier, TierTarget, EntryAllowed, Profit;
  }

  // ----- tiers and history

  /** The first `tier` fractions together. */
  function Cumulative(fractions: seq<real>, tier: nat): real
    requires tier <= |fractions|
  {
    if tier == 0 then 0.0 else Cumulative(fractions, tier - 1) + fractions[tier - 1]
  }

  lemma {:induction false} CumulativeIsTheSum(fractions: seq<real>, tier: nat)
    requires tier <= |fractions|
    ensures Sum(fractions[..tier]) == Cumulative(fractions, tier)
  {
    if tier > 0 {
      CumulativeIsTheSum(fractions, tier - 1);
      assert fractions[..tier][..tier - 1] == fractions[..tier - 1];
    }
  }

  /** Part of the shares a partial exit started from, or of the position before one starts. */
  function CalledFor(p: PositionState, share: real): real {
    (if p.exitBase.Some? then p.exitBase.value else p.quantity as real) * share
  }

  /** A level calls for the most whole lots within its share, with those of the levels below it, of the base. */
  lemma TierTargetMeans(v: Parameters, p: PositionState, tier: nat, lot: int)
    requires lot > 0 && tier <= |v.fractions|
    ensures var target := TierTarget(v, p, tier, lot);
            && target % lot == 0
            && target as real <= CalledFor(p, Cumulative(v.fractions, tier)) < (target + lot) as real
  {
    CumulativeIsTheSum(v.fractions, tier);
    var amount := CalledFor(p, Cumulative(v.fractions, tier));
    PortionIsCalledFor(p, Cumulative(v.fractions, tier));
    LotsWithinAmount(amount, lot);
    hide CalledFor, Portion, S.FloorToLot;
  }

  lemma PortionIsCalledFor(p: PositionState, share: real)
    ensures Portion(ExitBase(p), share) == CalledFor(p, share)
  {
  }

  lemma LotsWithinAmount(amount: real, lot: int)
    requires lot > 0
    ensures var q := S.FloorToLot(amount, lot);
            q % lot == 0 && q as real <= amount < (q + lot) as real
  {
    var n := (amount / lot as real).Floor;
    TickFloor(amount, lot as real);
    S.ModuloOfMultiple(n, lot);
    assert Ticks(n, lot as real) == (n * lot) as real;
    assert Ticks(n + 1, lot as real) == (n * lot + lot) as real;
  }

  /** Enough days for the lookback, and in rebound mode for every window it may look back to and for the average. */
  function DaysNeeded(v: Parameters): int {
    if !v.rebound then v.lookback
    else if v.lookback + v.windowDays >= v.maDays then Max(2, v.lookback + v.windowDays)
    else Max(2, v.maDays)
  }

  /** A complete history has exactly the days needed, each with positive closes. */
  lemma HistoryIsCompleteExactlyWhen(v: Parameters, h: History)
    ensures UsableHistory(v, h) <==>
            && |h.days| == DaysNeeded(v) && |h.closes| == DaysNeeded(v) && |h.raw| == DaysNeeded(v)
            && forall i | 0 <= i < DaysNeeded(v) :: Positive(h.closes, i) && Positive(h.raw, i)
  {
    if UsableHistory(v, h) {
      forall i | 0 <= i < DaysNeeded(v)
        ensures Positive(h.closes, i) && Positive(h.raw, i)
      {
      }
    } else if |h.days| == |h.closes| == |h.raw| == DaysNeeded(v) {
      if i :| 0 <= i < |h.closes| && h.closes[i] <= 0.0 {
        assert !Positive(h.closes, i);
      } else {
        var i :| 0 <= i < |h.raw| && h.raw[i] <= 0.0;
        assert !Positive(h.raw, i);
      }
    }
  }

  predicate Positive(xs: seq<real>, i: int) {
    0 <= i < |xs| && xs[i] > 0.0
  }
}
