/** The staged strategy through the engine: no holding cycle ever buys more than its capital cap. */
module CapitalCap {
  import opened Base
  import opened Numeric
  import opened Execution
  import opened Accounts
  import opened Reducer
  import opened StagedDrawdown
  import opened IntentExecutor
  import opened Engine
  import opened Books

  function BuyGross(e: Event, s: Id): real {
    if e.TradeFilled? && e.record.side == BUY && e.record.security == s then e.record.gross else 0.0
  }

  /** Gross bought since the position was last zero, read off the ledger alone. */
  function CycleBought(ledger: seq<Event>, s: Id): real {
    if ledger == [] || LedgerShares(ledger, s) == 0 then 0.0
    else CycleBought(ledger[..|ledger| - 1], s) + BuyGross(ledger[|ledger| - 1], s)
  }

  lemma CycleAppend(ledger: seq<Event>, e: Event, s: Id)
    requires LedgerShares(ledger, s) >= 0 && (e.TradeFilled? && e.record.side == BUY ==> e.record.filled > 0)
    ensures !e.TradeFilled? && ShareDelta(e, s) >= 0 ==> CycleBought(ledger + [e], s) == CycleBought(ledger, s)
    ensures CycleBought(ledger + [e], s) == CycleBought(ledger, s) + BuyGross(e, s)
         || (CycleBought(ledger + [e], s) == 0.0 && LedgerShares(ledger + [e], s) == 0)
    ensures BuyGross(e, s) != 0.0 ==> CycleBought(ledger + [e], s) == CycleBought(ledger, s) + BuyGross(e, s)
  {
    assert (ledger + [e])[..|ledger|] == ledger;
  }

  /** The cap held at every moment the ledger has seen. */
  ghost predicate CapHolds(ledger: seq<Event>, s: Id, cap: real) {
    forall k | 0 <= k <= |ledger| :: CycleBought(ledger[..k], s) <= cap
  }

  lemma CapAppend(ledger: seq<Event>, e: Event, s: Id, cap: real)
    requires CapHolds(ledger, s, cap) && CycleBought(ledger + [e], s) <= cap
    ensures CapHolds(ledger + [e], s, cap)
  {
    var longer := ledger + [e];
    forall k | 0 <= k <= |longer|
      ensures CycleBought(longer[..k], s) <= cap
    {
      if k == |longer| {
        assert longer[..k] == longer;
      } else {
        assert longer[..k] == ledger[..k];
      }
    }
  }

  function Cap(v: Parameters, capital: real): real {
    capital * v.maxFraction
  }

  function Position(a: Account, capital: real, s: Id): PositionState {
    var replayed := Replay(capital, a.ledger);
    if replayed.Ok? then PositionOf(replayed.value, s) else FLAT
  }

  /** The cap has always held, and the tracked figure the budget is computed from is never below
      what the cycle really bought. */
  ghost predicate Capped(a: Account, v: Parameters, capital: real) {
    var p := Position(a, capital, v.security);
    && CapHolds(a.ledger, v.security, Cap(v, capital))
    && p.cumulativeBuys >= 0.0
    && (p.quantity > 0 ==> CycleBought(a.ledger, v.security) <= p.cumulativeBuys)
  }

  /** A pending order that fits what the cycle has left. */
  ghost predicate Affordable(intent: Intent, ledger: seq<Event>, v: Parameters, capital: real) {
    && intent.security == v.security
    && (intent.side == BUY ==>
          && BuyNotional(intent.sizing, capital).Ok?
          && CycleBought(ledger, v.security) + BuyNotional(intent.sizing, capital).value <= Cap(v, capital))
  }

  // ----- transitions

  lemma {:induction false} SilentEventsKeepTheCycle(ledger: seq<Event>, longer: seq<Event>, s: Id, cap: real)
    requires Extends(ledger, longer) && LedgerShares(ledger, s) >= 0 && CapHolds(ledger, s, cap)
    ensures CycleBought(longer, s) == CycleBought(ledger, s) && CapHolds(longer, s, cap)
    ensures LedgerShares(longer, s) == LedgerShares(ledger, s)
    decreases |longer|
  {
    if |ledger| == |longer| {
      assert longer == ledger;
    } else {
      var n := |longer| - 1;
      SilentEventsKeepTheCycle(ledger, longer[..n], s, cap);
      assert longer == longer[..n] + [longer[n]];
      CycleAppend(longer[..n], longer[n], s);
      assert longer[..n][..n] == longer[..n];
      CapAppend(longer[..n], longer[n], s, cap);
      LedgerAppend(0.0, longer[..n], longer[n]);
    }
  }

  lemma QuietKeepsCapped(a: Account, b: Account, v: Parameters, capital: real, day: Date)
    requires Good(a, capital, day) && Quiet(a, b) && Capped(a, v, capital)
    ensures Capped(b, v, capital) && CycleBought(b.ledger, v.security) == CycleBought(a.ledger, v.security)
  {
    SharesAreNonnegative(a, capital, day, v.security);
    SilentEventsKeepTheCycle(a.ledger, b.ledger, v.security, Cap(v, capital));
    SilentEventsChangeNothing(capital, a.ledger, b.ledger);
  }

  lemma SharesAreNonnegative(a: Account, capital: real, day: Date, s: Id)
    requires Good(a, capital, day)
    ensures LedgerShares(a.ledger, s) == Get(a.positions, s) == Position(a, capital, s).quantity >= 0
  {
    assert Tracked(PositionOf(Replay(capital, a.ledger).value, s));
  }

  lemma NonTradeKeepsTheCycle(ledger: seq<Event>, e: Event, s: Id, cap: real)
    requires CapHolds(ledger, s, cap) && LedgerShares(ledger, s) >= 0 && !e.TradeFilled? && ShareDelta(e, s) >= 0
    ensures CapHolds(ledger + [e], s, cap) && CycleBought(ledger + [e], s) == CycleBought(ledger, s)
    ensures LedgerShares(ledger + [e], s) == LedgerShares(ledger, s) + ShareDelta(e, s)
  {
    CycleAppend(ledger, e, s);
    assert ledger[..|ledger|] == ledger;
    CapAppend(ledger, e, s, cap);
    LedgerAppend(0.0, ledger, e);
  }

  lemma ExDateKeepsCapped(a: Account, event: EventId, isSplit: bool, v: Parameters, capital: real, day: Date)
    requires Good(a, capital, day) && Capped(a, v, capital)
    requires event in a.entitlements && ApplyExDate(a, event, isSplit).Ok?
    ensures var b := ApplyExDate(a, event, isSplit).value;
            Capped(b, v, capital) && CycleBought(b.ledger, v.security) == CycleBought(a.ledger, v.security)
  {
    var s := v.security;
    var e := a.entitlements[event];
    var b := ApplyExDate(a, event, isSplit).value;
    var declared := CashDividendDeclared(event, e.cash);
    var adjustment := b.ledger[|b.ledger| - 1];
    SharesAreNonnegative(a, capital, day, s);
    NonTradeKeepsTheCycle(a.ledger, declared, s, Cap(v, capital));
    NonTradeKeepsTheCycle(a.ledger + [declared], adjustment, s, Cap(v, capital));
    assert b.ledger == (a.ledger + [declared]) + [adjustment];
    ExDateKeepsGood(a, event, isSplit, capital, day);
    assert Position(a, capital, s).quantity == 0 ==> CycleBought(a.ledger, s) == 0.0;
  }

  lemma {:induction false} ExDatesKeepCapped(
    a: Account, actions: seq<Action>, day: Date, declared: real, v: Parameters, capital: real)
    requires Good(a, capital, day) && Capped(a, v, capital) && ExDates(a, actions, day, declared).Ok?
    ensures var b := ExDates(a, actions, day, declared).value.0;
            Capped(b, v, capital) && CycleBought(b.ledger, v.security) == CycleBought(a.ledger, v.security)
    decreases |actions|
  {
    if actions != [] {
      if ExDue(a, actions[0], day) {
        var event, isSplit := actions[0].event, actions[0].kind == SPLIT;
        ExDateKeepsGood(a, event, isSplit, capital, day);
        ExDateKeepsCapped(a, event, isSplit, v, capital, day);
        ExDatesKeepCapped(ApplyExDate(a, event, isSplit).value, actions[1..], day,
                          declared + a.entitlements[event].cash, v, capital);
      } else {
        ExDatesKeepCapped(a, actions[1..], day, declared, v, capital);
      }
    }
  }

  lemma TradeKeepsCapped(a: Account, r: Record, release: Option<Date>, v: Parameters, capital: real, day: Date)
    requires Good(a, capital, day) && Capped(a, v, capital) && Accounts.ApplyTrade(a, r, release).Ok?
    requires r.date == day && r.filled > 0 && r.gross > 0.0 && r.security == v.security && Cap(v, capital) >= 0.0
    requires r.side == BUY ==> CycleBought(a.ledger, v.security) + r.gross <= Cap(v, capital)
    ensures Capped(Accounts.ApplyTrade(a, r, release).value, v, capital)
  {
    var s := v.security;
    var b := Accounts.ApplyTrade(a, r, release).value;
    SharesAreNonnegative(a, capital, day, s);
    CycleAppend(a.ledger, TradeFilled(r), s);
    assert a.ledger[..|a.ledger|] == a.ledger;
    CapAppend(a.ledger, TradeFilled(r), s, Cap(v, capital));
    TradeKeepsGood(a, r, release, capital, day);
    SharesAreNonnegative(b, capital, day, s);
  }

  lemma StepIntentKeepsCapped(m: Market, a: Account, day: Date, intent: Intent, v: Parameters, capital: real)
    requires Good(a, capital, day) && Capped(a, v, capital) && m.participation >= 0.0 && Cap(v, capital) >= 0.0
    requires Affordable(intent, a.ledger, v, capital) && StepIntent(m, a, capital, day, intent).Ok?
    ensures Capped(StepIntent(m, a, capital, day, intent).value.account, v, capital)
  {
    var step := StepIntent(m, a, capital, day, intent).value;
    StepIntentFillsOnce(m, a, capital, day, intent);
    if step.trades != [] {
      var r := step.trades[0].0;
      TradeKeepsCapped(a, r, ReleaseDate(m, day, r.side), v, capital, day);
    }
  }

  lemma ValuationKeepsCapped(a: Account, v: Parameters, capital: real, day: Date, nav: real)
    requires Good(a, capital, day) && Capped(a, v, capital)
    ensures var b := Accounts.RecordValuation(a, day, nav);
            Capped(b, v, capital) && CycleBought(b.ledger, v.security) == CycleBought(a.ledger, v.security)
  {
    SharesAreNonnegative(a, capital, day, v.security);
    NonTradeKeepsTheCycle(a.ledger, ValuationRecorded(day, nav), v.security, Cap(v, capital));
    ValuationKeepsGood(a, capital, day, nav);
  }

  // ----- the strategy inside the engine

  /** The strategy's decision as the engine sees it: effective on the next trading day. */
  function StagedDecision(
    v: Parameters, history: Date -> History, nextDay: Date -> Date, day: Date, state: Snapshot): Result<Decision>
    requires ValidParameters(v)
  {
    var intent :- Decide(v, state.capital, PositionOf(state, v.security), history(day));
    Ok(Decision(nextDay(day), if intent.Some? then [intent.value] else []))
  }

  /** The engine runs this strategy on a calendar whose next day never skips a visited day. */
  ghost predicate StagedRun(
    inputs: Inputs, v: Parameters, history: Date -> History, nextDay: Date -> Date, days: seq<Date>)
  {
    && ValidParameters(v) && SoundInputs(inputs) && Increasing(days) && inputs.stateful
    && (forall day, state :: inputs.decide(day, state) == StagedDecision(v, history, nextDay, day, state))
    && (forall n | 0 < n < |days| :: nextDay(days[n - 1]) <= days[n])
  }

  /** Every order still to come was decided today and fits what the cycle has left. */
  ghost predicate OrdersFit(run: Run, v: Parameters, capital: real, nextDay: Date -> Date, day: Date) {
    forall effective | effective in run.pending ::
      || effective <= day
      || (&& effective == nextDay(day)
          && run.pending[effective].TradeIntents?
          && |run.pending[effective].intents| <= 1
          && forall intent | intent in run.pending[effective].intents ::
               Affordable(intent, run.account.ledger, v, capital))
  }

  ghost predicate CappedRun(inputs: Inputs, run: Run, v: Parameters, nextDay: Date -> Date, day: Date) {
    && GoodRun(inputs, run, day)
    && Capped(run.account, v, inputs.capital)
    && OrdersFit(run, v, inputs.capital, nextDay, day)
    && inputs.capital > 0.0
  }

  lemma CapIsNonnegative(v: Parameters, capital: real)
    requires ValidParameters(v) && capital > 0.0
    ensures Cap(v, capital) >= 0.0
  {
    MulMonotone(0.0, v.maxFraction, capital);
  }

  lemma OpenDayKeepsCapped(inputs: Inputs, run: Run, v: Parameters, nextDay: Date -> Date, before: Date, day: Date)
    requires ValidParameters(v) && SoundInputs(inputs) && CappedRun(inputs, run, v, nextDay, before)
    requires before < day && nextDay(before) <= day && OpenDay(inputs, run, day).Ok?
    ensures Capped(OpenDay(inputs, run, day).value.fills.account, v, inputs.capital)
  {
    var capital := inputs.capital;
    LaterDay(inputs, run, before, day);
    var a := run.account;
    var released := Accounts.ReleaseSellable(a, day).value;
    ReleaseDueIsQuiet(a, day);
    QuietKeepsGood(a, released, capital, day);
    QuietKeepsCapped(a, released, v, capital, day);
    var ex := ExDates(released, inputs.actions, day, 0.0).value.0;
    ExDatesKeepGood(released, inputs.actions, day, 0.0, capital);
    ExDatesKeepCapped(released, inputs.actions, day, 0.0, v, capital);
    var listed := PayAndList(ex, inputs.actions, day).value;
    PayAndListIsQuiet(ex, inputs.actions, day);
    QuietKeepsGood(ex, listed, capital, day);
    QuietKeepsCapped(ex, listed, v, capital, day);
    if day in run.pending {
      CapIsNonnegative(v, capital);
      ExecutedOrdersKeepCapped(inputs.market, listed, run, day, v, capital, nextDay, before);
    }
  }

  lemma ExecutedOrdersKeepCapped(
    m: Market, listed: Account, run: Run, day: Date, v: Parameters, capital: real, nextDay: Date -> Date, before: Date)
    requires Good(listed, capital, day) && Capped(listed, v, capital) && m.participation >= 0.0
             && Cap(v, capital) >= 0.0
    requires CycleBought(listed.ledger, v.security) == CycleBought(run.account.ledger, v.security)
    requires OrdersFit(run, v, capital, nextDay, before) && before < day && day in run.pending
    requires ExecuteDue(m, listed, capital, day, run.pending[day]).Ok?
    ensures Capped(ExecuteDue(m, listed, capital, day, run.pending[day]).value.fills.account, v, capital)
  {
    var intents := run.pending[day].intents;
    if intents == [] {
      assert Ordered(intents) == [];
    } else {
      assert intents == [intents[0]] && intents[0] in intents;
      OneIntentIsOrdered(intents);
      RunningOneIntent(m, Fills(listed, [], []), capital, day, intents);
      StepIntentKeepsCapped(m, listed, day, intents[0], v, capital);
    }
  }

  lemma RunningOneIntent(m: Market, done: Fills, capital: real, day: Date, intents: seq<Intent>)
    requires |intents| == 1
    ensures RunIntents(m, done, capital, day, intents).Ok? ==>
              && StepIntent(m, done.account, capital, day, intents[0]).Ok?
              && RunIntents(m, done, capital, day, intents).value.account
                 == StepIntent(m, done.account, capital, day, intents[0]).value.account
  {
    assert intents[1..] == [];
  }

  lemma OneIntentIsOrdered(intents: seq<Intent>)
    requires |intents| == 1
    ensures Ordered(intents) == intents
  {
    assert Ordered(intents[1..]) == [];
  }

  lemma DecideDayKeepsOrdersFit(
    inputs: Inputs, run: Run, v: Parameters, history: Date -> History, nextDay: Date -> Date, day: Date)
    requires ValidParameters(v) && GoodRun(inputs, run, day) && Capped(run.account, v, inputs.capital)
             && inputs.capital > 0.0
    requires forall d, state :: inputs.decide(d, state) == StagedDecision(v, history, nextDay, d, state)
    requires inputs.stateful && forall effective | effective in run.pending :: effective <= day
    requires DecideDay(inputs, run, day).Ok?
    ensures OrdersFit(DecideDay(inputs, run, day).value, v, inputs.capital, nextDay, day)
  {
    if inputs.isDecisionDay(day) {
      var capital := inputs.capital;
      CursorSurvives(run, run.account.ledger, capital);
      var state := Replay(capital, run.account.ledger).value;
      StagedOrdersFit(run.account, v, capital, history, nextDay, day);
      assert inputs.decide(day, state) == StagedDecision(v, history, nextDay, day, state);
    }
  }

  lemma StagedOrdersFit(
    a: Account, v: Parameters, capital: real, history: Date -> History, nextDay: Date -> Date, day: Date)
    requires ValidParameters(v) && Good(a, capital, day) && Capped(a, v, capital) && capital > 0.0
    ensures var decision := StagedDecision(v, history, nextDay, day, Replay(capital, a.ledger).value);
            decision.Ok? ==>
              && decision.value.effective == nextDay(day)
              && |decision.value.intents| <= 1
              && forall intent | intent in decision.value.intents :: Affordable(intent, a.ledger, v, capital)
  {
    var state := Replay(capital, a.ledger).value;
    var p := PositionOf(state, v.security);
    SharesAreNonnegative(a, capital, day, v.security);
    assert CycleBought(a.ledger, v.security) <= CycleBuys(p);
    DecisionStaysWithinBudget(v, capital, p, history(day));
  }

  lemma RunDayKeepsCapped(
    inputs: Inputs, run: Run, v: Parameters, history: Date -> History, nextDay: Date -> Date, before: Date, day: Date)
    requires ValidParameters(v) && SoundInputs(inputs) && inputs.stateful && CappedRun(inputs, run, v, nextDay, before)
    requires forall d, state :: inputs.decide(d, state) == StagedDecision(v, history, nextDay, d, state)
    requires before < day && nextDay(before) <= day && RunDay(inputs, run, day).Ok?
    ensures CappedRun(inputs, RunDay(inputs, run, day).value, v, nextDay, day)
  {
    hide OpenDay, Good, Capped, ValidParameters, FiguresOf, DayContribution, RecordAll;
    LaterDay(inputs, run, before, day);
    OpenDayKeepsGood(inputs, run, day);
    OpenDayKeepsCapped(inputs, run, v, nextDay, before, day);
    var morning := OpenDay(inputs, run, day).value;
    CloseDayKeepsGood(inputs, run, morning, day);
    var closed := CloseDay(inputs, run, morning, day).value;
    CloseDayKeepsCapped(inputs, run, morning, v, day);
    DecideDayKeepsGood(inputs, closed, day);
    DecideDayKeepsOrdersFit(inputs, closed, v, history, nextDay, day);
  }

  lemma CloseDayKeepsCapped(inputs: Inputs, run: Run, morning: Morning, v: Parameters, day: Date)
    requires SoundInputs(inputs) && Good(morning.fills.account, inputs.capital, day)
    requires Capped(morning.fills.account, v, inputs.capital) && CloseDay(inputs, run, morning, day).Ok?
    ensures Capped(CloseDay(inputs, run, morning, day).value.account, v, inputs.capital)
  {
    var closed := CloseDay(inputs, run, morning, day).value;
    var a := morning.fills.account;
    var nav := closed.daily[|closed.daily| - 1].nav;
    ValuationKeepsGood(a, inputs.capital, day, nav);
    ValuationKeepsCapped(a, v, inputs.capital, day, nav);
    var valued := Accounts.RecordValuation(a, day, nav);
    RecordAllIsQuiet(valued, inputs.actions, day);
    QuietKeepsCapped(valued, closed.account, v, inputs.capital, day);
  }

  lemma StartIsCapped(inputs: Inputs, v: Parameters, nextDay: Date -> Date, day: Date)
    requires ValidParameters(v) && Start(inputs).Ok?
    ensures CappedRun(inputs, Start(inputs).value, v, nextDay, day)
  {
    StartIsGood(inputs, day);
    CapIsNonnegative(v, inputs.capital);
    var opening := CashInitialized(inputs.capital);
    assert CapHolds([], v.security, Cap(v, inputs.capital));
    NonTradeKeepsTheCycle([], opening, v.security, Cap(v, inputs.capital));
    LedgerAppend(inputs.capital, [], opening);
    assert [] + [opening] == [opening];
  }

  lemma {:induction false} EveryRunIsCapped(
    inputs: Inputs, v: Parameters, history: Date -> History, nextDay: Date -> Date, days: seq<Date>)
    requires StagedRun(inputs, v, history, nextDay, days) && RunDays(inputs, days).Ok? && days != []
    ensures CappedRun(inputs, RunDays(inputs, days).value, v, nextDay, days[|days| - 1])
    decreases |days|
  {
    var n := |days| - 1;
    var before := RunDays(inputs, days[..n]).value;
    if n == 0 {
      FirstDayKeepsCapped(inputs, v, history, nextDay, days[0]);
    } else {
      EveryRunIsCapped(inputs, v, history, nextDay, days[..n]);
      RunDayKeepsCapped(inputs, before, v, history, nextDay, days[n - 1], days[n]);
    }
  }

  /** The first day has no pending order, so no calendar assumption is needed before it. */
  lemma FirstDayKeepsCapped(
    inputs: Inputs, v: Parameters, history: Date -> History, nextDay: Date -> Date, day: Date)
    requires ValidParameters(v) && SoundInputs(inputs) && inputs.stateful
    requires forall d, state :: inputs.decide(d, state) == StagedDecision(v, history, nextDay, d, state)
    requires Start(inputs).Ok? && RunDay(inputs, Start(inputs).value, day).Ok?
    ensures CappedRun(inputs, RunDay(inputs, Start(inputs).value, day).value, v, nextDay, day)
  {
    hide OpenDay, Good, Capped, ValidParameters, FiguresOf, DayContribution, RecordAll;
    var calm: Date -> Date := (d: Date) => d;
    var run := Start(inputs).value;
    StartIsCapped(inputs, v, calm, day - 1);
    LaterDay(inputs, run, day - 1, day);
    OpenDayKeepsGood(inputs, run, day);
    OpenDayKeepsCapped(inputs, run, v, calm, day - 1, day);
    var morning := OpenDay(inputs, run, day).value;
    CloseDayKeepsGood(inputs, run, morning, day);
    CloseDayKeepsCapped(inputs, run, morning, v, day);
    var closed := CloseDay(inputs, run, morning, day).value;
    DecideDayKeepsGood(inputs, closed, day);
    DecideDayKeepsOrdersFit(inputs, closed, v, history, nextDay, day);
  }

  /** The capital cap of the staged strategy. In every run, for any prices, slippage, volumes, partial
      fills, sells and corporate actions, at every moment the gross bought since the position was
      last zero is at most the capital fraction the parameters allow. */
  lemma CycleNeverBuysMoreThanTheCap(
    inputs: Inputs, v: Parameters, history: Date -> History, nextDay: Date -> Date, days: seq<Date>, run: Run,
    moment: nat)
    requires StagedRun(inputs, v, history, nextDay, days) && days != []
    requires RunDays(inputs, days) == Ok(run) && moment <= |run.account.ledger|
    ensures CycleBought(run.account.ledger[..moment], v.security) <= Cap(v, inputs.capital)
  {
    EveryRunIsCapped(inputs, v, history, nextDay, days);
    CapHoldsAt(inputs, run, v, nextDay, days[|days| - 1], moment);
  }

  lemma CapHoldsAt(inputs: Inputs, run: Run, v: Parameters, nextDay: Date -> Date, day: Date, moment: nat)
    requires CappedRun(inputs, run, v, nextDay, day) && moment <= |run.account.ledger|
    ensures CycleBought(run.account.ledger[..moment], v.security) <= Cap(v, inputs.capital)
  {
    hide Cap;
  }
}
