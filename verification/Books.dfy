/** Invariants of every run: the ledger accounts for all cash and shares, and the strategy state
    folded from the ledger agrees with the account and never refuses an event. */
module Books {
  import opened Base
  import opened Execution
  import opened Accounts
  import opened Reducer
  import opened IntentExecutor
  import opened AllocationExecutor
  import opened Engine

  function CashDelta(e: Event): real {
    match e
    case CashInitialized(amount) => amount
    case TradeFilled(r) => if r.side == BUY then -(r.gross + r.fees.Total()) else r.gross - r.fees.Total()
    case CashDividendDeclared(_, amount) => amount
    case _ => 0.0
  }

  function ShareDelta(e: Event, s: Id): int {
    match e
    case TradeFilled(r) => if r.security != s then 0 else if r.side == BUY then r.filled else -r.filled
    case StockDistributionApplied(_, security, quantity) => if security == s then quantity else 0
    case SplitApplied(_, security, quantity, _) => if security == s then quantity else 0
    case _ => 0
  }

  /** Initial cash, less what buys cost, plus what sells brought and what dividends were declared. */
  function LedgerCash(ledger: seq<Event>): real {
    if ledger == [] then 0.0 else LedgerCash(ledger[..|ledger| - 1]) + CashDelta(ledger[|ledger| - 1])
  }

  function LedgerShares(ledger: seq<Event>, s: Id): int {
    if ledger == [] then 0 else LedgerShares(ledger[..|ledger| - 1], s) + ShareDelta(ledger[|ledger| - 1], s)
  }

  ghost predicate CashBalances(a: Account) {
    a.cash + a.receivable == LedgerCash(a.ledger)
  }

  ghost predicate SharesBalance(a: Account) {
    forall s :: Get(a.positions, s) == LedgerShares(a.ledger, s)
  }

  ghost predicate Agrees(state: Snapshot, positions: map<Id, int>) {
    forall s :: Tracked(PositionOf(state, s)) && PositionOf(state, s).quantity == Get(positions, s)
  }

  ghost predicate AsOfBy(state: Snapshot, day: Date) {
    state.asOf.None? || state.asOf.value <= day
  }

  /** Replaying the whole ledger succeeds and lands on the account's positions. */
  ghost predicate Follows(a: Account, capital: real, day: Date) {
    var replayed := Replay(capital, a.ledger);
    && replayed.Ok?
    && replayed.value.capital == capital
    && AsOfBy(replayed.value, day)
    && Agrees(replayed.value, a.positions)
  }

  ghost predicate StocksNonnegative(a: Account) {
    forall event | event in a.entitlements :: a.entitlements[event].stock >= 0
  }

  ghost predicate Good(a: Account, capital: real, day: Date) {
    Sound(a) && CashBalances(a) && SharesBalance(a) && Follows(a, capital, day) && StocksNonnegative(a)
  }

  lemma LedgerAppend(capital: real, ledger: seq<Event>, e: Event)
    ensures LedgerCash(ledger + [e]) == LedgerCash(ledger) + CashDelta(e)
    ensures forall s :: LedgerShares(ledger + [e], s) == LedgerShares(ledger, s) + ShareDelta(e, s)
    ensures Replay(capital, ledger).Ok? ==> Replay(capital, ledger + [e]) == Apply(Replay(capital, ledger).value, e)
  {
    assert (ledger + [e])[..|ledger|] == ledger;
  }

  // ----- transitions the strategy state and the cash total do not notice

  predicate Silent(e: Event) {
    e.SellableReleased? || e.EntitlementRecorded? || e.CashDividendPaid?
  }

  ghost predicate Extends(ledger: seq<Event>, longer: seq<Event>) {
    ledger <= longer && forall i | |ledger| <= i < |longer| :: Silent(longer[i])
  }

  ghost predicate Quiet(a: Account, b: Account) {
    b.positions == a.positions && b.cash + b.receivable == a.cash + a.receivable && Extends(a.ledger, b.ledger)
  }

  lemma {:induction false} SilentEventsChangeNothing(capital: real, ledger: seq<Event>, longer: seq<Event>)
    requires Extends(ledger, longer) && Replay(capital, ledger).Ok?
    ensures Replay(capital, longer) == Replay(capital, ledger)
    ensures LedgerCash(longer) == LedgerCash(ledger)
    ensures forall s :: LedgerShares(longer, s) == LedgerShares(ledger, s)
    decreases |longer|
  {
    if |ledger| == |longer| {
      assert longer == ledger;
    } else {
      var n := |longer| - 1;
      SilentEventsChangeNothing(capital, ledger, longer[..n]);
      assert longer == longer[..n] + [longer[n]];
      LedgerAppend(capital, longer[..n], longer[n]);
    }
  }

  lemma QuietKeepsGood(a: Account, b: Account, capital: real, day: Date)
    requires Good(a, capital, day) && Quiet(a, b) && Sound(b) && StocksNonnegative(b)
    ensures Good(b, capital, day)
  {
    SilentEventsChangeNothing(capital, a.ledger, b.ledger);
  }

  lemma {:induction false} ReleaseLotsIsQuiet(a: Account, lots: seq<Lot>)
    ensures Quiet(a, ReleaseLots(a, lots)) && ReleaseLots(a, lots).entitlements == a.entitlements
    decreases |lots|
  {
    if lots != [] {
      ReleaseLotsIsQuiet(
        a.(sellable := Move(a.sellable, lots[0].security, lots[0].quantity),
           ledger := a.ledger + [SellableReleased(lots[0].security, lots[0].quantity)]),
        lots[1..]);
    }
  }

  lemma {:induction false} ReleaseDueIsQuiet(a: Account, day: Date)
    ensures Quiet(a, ReleaseDue(a, day)) && ReleaseDue(a, day).entitlements == a.entitlements
    decreases |a.pending|
  {
    var due := EarliestDue(a.pending, day);
    if due.Some? {
      var popped := WithoutBucket(a, due.value);
      var lots := a.pending[due.value].lots;
      ReleaseLotsKeepsPending(popped, lots);
      ReleaseLotsIsQuiet(popped, lots);
      ReleaseDueIsQuiet(ReleaseLots(popped, lots), day);
    }
  }

  lemma PayAndListOneIsQuiet(a: Account, action: Action, day: Date)
    requires Sound(a) && PayAndListOne(a, action, day).Ok?
    ensures var b := PayAndListOne(a, action, day).value;
            Quiet(a, b) && Sound(b) && b.entitlements == a.entitlements
  {
  }

  lemma {:induction false} PayAndListIsQuiet(a: Account, actions: seq<Action>, day: Date)
    requires Sound(a) && PayAndList(a, actions, day).Ok?
    ensures var b := PayAndList(a, actions, day).value;
            Quiet(a, b) && Sound(b) && b.entitlements == a.entitlements
    decreases |actions|
  {
    if actions != [] {
      PayAndListOneIsQuiet(a, actions[0], day);
      PayAndListIsQuiet(PayAndListOne(a, actions[0], day).value, actions[1..], day);
    }
  }

  ghost predicate RatiosNonnegative(actions: seq<Action>) {
    forall i | 0 <= i < |actions| :: Ratio(actions[i]) >= 0.0
  }

  lemma RecordOneIsQuiet(a: Account, action: Action)
    requires Sound(a) && StocksNonnegative(a) && Ratio(action) >= 0.0 && RecordOne(a, action).Ok?
    ensures var b := RecordOne(a, action).value;
            Quiet(a, b) && Sound(b) && StocksNonnegative(b)
  {
    var quantity := Get(a.positions, action.security);
    assert quantity as real * Ratio(action) >= 0.0;
  }

  lemma {:induction false} RecordAllIsQuiet(a: Account, actions: seq<Action>, day: Date)
    requires Sound(a) && StocksNonnegative(a) && RatiosNonnegative(actions) && RecordAll(a, actions, day).Ok?
    ensures var b := RecordAll(a, actions, day).value;
            Quiet(a, b) && Sound(b) && StocksNonnegative(b)
    decreases |actions|
  {
    if actions != [] {
      if actions[0].record == day {
        RecordOneIsQuiet(a, actions[0]);
        RecordAllIsQuiet(RecordOne(a, actions[0]).value, actions[1..], day);
      } else {
        RecordAllIsQuiet(a, actions[1..], day);
      }
    }
  }

  // ----- transitions that count

  lemma AgreesAfterStore(state: Snapshot, positions: map<Id, int>, s: Id, p: PositionState, quantity: int,
      asOf: Option<Date>)
    requires Agrees(state, positions) && Tracked(p) && p.quantity == Get(positions, s) + quantity
    ensures Stored(state, s, p, asOf).Ok?
    ensures Agrees(Stored(state, s, p, asOf).value, Move(positions, s, quantity))
  {
    var next := Stored(state, s, p, asOf).value;
    forall t
      ensures Tracked(PositionOf(next, t)) && PositionOf(next, t).quantity == Get(Move(positions, s, quantity), t)
    {
      assert Tracked(PositionOf(state, t));
    }
  }

  /** An ex date appends two events; only the adjustment reaches the strategy state. */
  lemma ExDateLedger(a: Account, event: EventId, isSplit: bool, capital: real)
    requires event in a.entitlements && ApplyExDate(a, event, isSplit).Ok? && Replay(capital, a.ledger).Ok?
    ensures var b, e := ApplyExDate(a, event, isSplit).value, a.entitlements[event];
            && LedgerCash(b.ledger) == LedgerCash(a.ledger) + e.cash
            && (forall s ::
                  LedgerShares(b.ledger, s) == LedgerShares(a.ledger, s) + if s == e.security then e.stock else 0)
            && Replay(capital, b.ledger) == ApplyAdjustment(Replay(capital, a.ledger).value, e.security, e.stock)
  {
    hide Replay, LedgerCash, LedgerShares, ApplyAdjustment, Sound;
    var b, e := ApplyExDate(a, event, isSplit).value, a.entitlements[event];
    var declared := CashDividendDeclared(event, e.cash);
    var adjustment := b.ledger[|b.ledger| - 1];
    assert b.ledger == (a.ledger + [declared]) + [adjustment];
    LedgerAppend(capital, a.ledger, declared);
    LedgerAppend(capital, a.ledger + [declared], adjustment);
  }

  lemma ExDateKeepsGood(a: Account, event: EventId, isSplit: bool, capital: real, day: Date)
    requires Good(a, capital, day) && event in a.entitlements && ApplyExDate(a, event, isSplit).Ok?
    ensures var b := ApplyExDate(a, event, isSplit).value;
            && Good(b, capital, day) && b.entitlements == a.entitlements && a.ledger <= b.ledger
            && b.cash + b.receivable == a.cash + a.receivable + a.entitlements[event].cash
            && var e := a.entitlements[event];
               ApplyAdjustment(Replay(capital, a.ledger).value, e.security, e.stock) == Replay(capital, b.ledger)
  {
    hide Replay, LedgerCash, LedgerShares, Adjusted, Tracked;
    var e := a.entitlements[event];
    var b := ApplyExDate(a, event, isSplit).value;
    ExDateLedger(a, event, isSplit, capital);
    var state := Replay(capital, a.ledger).value;
    assert Tracked(PositionOf(state, e.security));
    AdjustedIsTracked(PositionOf(state, e.security), e.stock);
    AgreesAfterStore(state, a.positions, e.security, Adjusted(PositionOf(state, e.security), e.stock), e.stock,
                     state.asOf);
  }

  lemma {:induction false} ExDatesKeepGood(a: Account, actions: seq<Action>, day: Date, declared: real, capital: real)
    requires Good(a, capital, day) && ExDates(a, actions, day, declared).Ok?
    ensures var (b, total) := ExDates(a, actions, day, declared).value;
            && Good(b, capital, day) && a.ledger <= b.ledger
            && b.cash + b.receivable - total == a.cash + a.receivable - declared
    decreases |actions|
  {
    if actions != [] {
      if ExDue(a, actions[0], day) {
        ExDateKeepsGood(a, actions[0].event, actions[0].kind == SPLIT, capital, day);
        var next := ApplyExDate(a, actions[0].event, actions[0].kind == SPLIT).value;
        ExDatesKeepGood(next, actions[1..], day, declared + a.entitlements[actions[0].event].cash, capital);
      } else {
        ExDatesKeepGood(a, actions[1..], day, declared, capital);
      }
    }
  }

  /** The reducer's step for an accepted fill. */
  function Filled(state: Snapshot, r: Record): PositionState {
    if r.side == BUY then Bought(PositionOf(state, r.security), r) else Sold(PositionOf(state, r.security), r)
  }

  lemma TradeKeepsGood(a: Account, r: Record, release: Option<Date>, capital: real, day: Date)
    requires Good(a, capital, day) && Accounts.ApplyTrade(a, r, release).Ok?
    requires r.date == day && r.filled > 0
    ensures var b := Accounts.ApplyTrade(a, r, release).value;
            && Good(b, capital, day) && a.ledger <= b.ledger && b.entitlements == a.entitlements
            && b.cash + b.receivable == a.cash + a.receivable + CashDelta(TradeFilled(r))
            && var state := Replay(capital, a.ledger).value;
               Replay(capital, b.ledger) == Stored(state, r.security, Filled(state, r), Some(day))
  {
    hide Replay, LedgerCash, LedgerShares, Bought, Sold, Tracked, AddPending;
    var b := Accounts.ApplyTrade(a, r, release).value;
    LedgerAppend(capital, a.ledger, TradeFilled(r));
    var state := Replay(capital, a.ledger).value;
    var current := PositionOf(state, r.security);
    assert Tracked(current) && current.quantity == Get(a.positions, r.security);
    if r.side == BUY {
      BoughtIsTracked(current, r);
      AgreesAfterStore(state, a.positions, r.security, Bought(current, r), r.filled, Some(day));
    } else {
      assert r.security in b.positions && b.positions[r.security] >= 0;
      SoldIsTracked(current, r);
      AgreesAfterStore(state, a.positions, r.security, Sold(current, r), -r.filled, Some(day));
    }
  }

  function TradesCash(trades: seq<(Record, Asset)>): real {
    if trades == [] then 0.0
    else TradesCash(trades[..|trades| - 1]) + CashDelta(TradeFilled(trades[|trades| - 1].0))
  }

  lemma {:induction false} TradesCashAppends(first: seq<(Record, Asset)>, second: seq<(Record, Asset)>)
    ensures TradesCash(first + second) == TradesCash(first) + TradesCash(second)
    decreases |second|
  {
    if second == [] {
      assert first + second == first;
    } else {
      var n := |second| - 1;
      assert (first + second)[..|first| + n] == first + second[..n];
      TradesCashAppends(first, second[..n]);
    }
  }

  /** Any chain of real trades keeps the books, whichever executor placed them. */
  lemma {:induction false} TradesKeepGood(
    m: Market, a: Account, capital: real, day: Date, trades: seq<(Record, Asset)>, b: Account)
    requires Good(a, capital, day) && Trades(m, a, day, trades, b)
    ensures Good(b, capital, day) && a.ledger <= b.ledger && b.entitlements == a.entitlements
    ensures b.cash + b.receivable == a.cash + a.receivable + TradesCash(trades)
    decreases |trades|
  {
    hide Good, Trades;
    if trades == [] {
      assert b == a by { assert Trades(m, a, day, trades, b); NothingTraded(m, a, day, b); }
    } else {
      var n := |trades| - 1;
      LastTrade(m, a, day, trades, b);
      var before := AfterTrades(m, a, day, trades[..n]).value;
      TradesKeepGood(m, a, capital, day, trades[..n], before);
      var r := trades[n].0;
      TradeKeepsGood(before, r, ReleaseDate(m, day, r.side), capital, day);
    }
  }

  lemma NothingTraded(m: Market, a: Account, day: Date, b: Account)
    requires Trades(m, a, day, [], b)
    ensures b == a
  {
  }

  /** Whatever the account, an execution is its trades applied in turn. */
  lemma DueApplies(m: Market, a: Account, capital: real, day: Date, due: Due)
    requires ExecuteDue(m, a, capital, day, due).Ok?
    ensures var fills := ExecuteDue(m, a, capital, day, due).value.fills;
            AfterTrades(m, a, day, fills.trades) == Ok(fills.account)
  {
    hide ExecuteAllocation, RunIntents, Turnover;
    match due {
      case TradeIntents(intents) =>
        NothingApplies(m, a, day, Fills(a, [], []));
        RunIntentsApply(m, a, Fills(a, [], []), capital, day, Ordered(intents));
      case TargetWeights(targets) =>
        AllocationApplies(m, a, day, targets);
    }
  }

  /** Both executors trade this way. */
  lemma DueTrades(m: Market, a: Account, capital: real, day: Date, due: Due)
    requires Sound(a) && m.participation >= 0.0 && ExecuteDue(m, a, capital, day, due).Ok?
    ensures var fills := ExecuteDue(m, a, capital, day, due).value.fills;
            Trades(m, a, day, fills.trades, fills.account)
  {
    hide ExecuteDecision, ExecuteAllocation;
    match due {
      case TradeIntents(intents) => DecisionTrades(m, a, capital, day, intents);
      case TargetWeights(targets) => AllocationTrades(m, a, day, targets);
    }
  }

  lemma ValuationKeepsGood(a: Account, capital: real, day: Date, nav: real)
    requires Good(a, capital, day)
    ensures Good(Accounts.RecordValuation(a, day, nav), capital, day)
    ensures Replay(capital, Accounts.RecordValuation(a, day, nav).ledger).value.positions
            == Replay(capital, a.ledger).value.positions
  {
    LedgerAppend(capital, a.ledger, ValuationRecorded(day, nav));
    var state := Replay(capital, a.ledger).value;
    var next := Replay(capital, Accounts.RecordValuation(a, day, nav).ledger).value;
    forall s
      ensures Tracked(PositionOf(next, s)) && PositionOf(next, s).quantity == Get(a.positions, s)
    {
      assert PositionOf(next, s) == PositionOf(state, s);
    }
  }

  // ----- whole days and whole runs

  ghost predicate Increasing(days: seq<Date>) {
    forall i, j | 0 <= i < j < |days| :: days[i] < days[j]
  }

  /** What the data contracts give: a nonnegative participation rate and distribution ratios. */
  ghost predicate SoundInputs(inputs: Inputs) {
    inputs.market.participation >= 0.0 && RatiosNonnegative(inputs.actions)
  }

  /** The last daily record is the account the next day starts from. */
  ghost predicate DailyMatches(run: Run) {
    run.daily != [] ==>
      var last := run.daily[|run.daily| - 1];
      && last.cash + last.receivable == run.account.cash + run.account.receivable
      && last.nav == last.cash + last.receivable + last.stock + last.etf
      && last.nav > 0.0
  }

  /** The incremental fold is at its cursor in the full replay. */
  ghost predicate CursorMatches(run: Run, capital: real) {
    && run.cursor <= |run.account.ledger|
    && Replay(capital, run.account.ledger[..run.cursor]) == Ok(run.strategy)
  }

  ghost predicate GoodRun(inputs: Inputs, run: Run, day: Date) {
    Good(run.account, inputs.capital, day) && DailyMatches(run) && CursorMatches(run, inputs.capital)
    && run.strategy.capital == inputs.capital
  }

  lemma {:induction false} FoldKeepsCapital(state: Snapshot, events: seq<Event>)
    ensures Fold(state, events).Ok? ==> Fold(state, events).value.capital == state.capital
  {
    if events != [] {
      FoldKeepsCapital(state, events[..|events| - 1]);
    }
  }

  lemma CursorSurvives(run: Run, ledger: seq<Event>, capital: real)
    requires CursorMatches(run, capital) && run.account.ledger <= ledger
    ensures run.cursor <= |ledger| && Replay(capital, ledger[..run.cursor]) == Ok(run.strategy)
    ensures Fold(run.strategy, From(ledger, run.cursor)) == Replay(capital, ledger)
  {
    assert ledger[..run.cursor] == run.account.ledger[..run.cursor];
    assert ledger == ledger[..run.cursor] + ledger[run.cursor..];
    FoldInChunks(Snapshot(capital, None, map[]), ledger[..run.cursor], ledger[run.cursor..]);
  }

  lemma StartIsGood(inputs: Inputs, day: Date)
    requires Start(inputs).Ok?
    ensures GoodRun(inputs, Start(inputs).value, day)
  {
    var opening := CashInitialized(inputs.capital);
    LedgerAppend(inputs.capital, [], opening);
    assert [] + [opening] == [opening];
    assert [opening][..0] == [];
  }

  lemma OpenDayKeepsGood(inputs: Inputs, run: Run, day: Date)
    requires SoundInputs(inputs) && GoodRun(inputs, run, day) && OpenDay(inputs, run, day).Ok?
    ensures var morning := OpenDay(inputs, run, day).value;
            var b := morning.fills.account;
            && Good(b, inputs.capital, day) && run.account.ledger <= b.ledger
            && b.cash + b.receivable
               == run.account.cash + run.account.receivable + morning.declared + TradesCash(morning.fills.trades)
  {
    var a := run.account;
    var released := Accounts.ReleaseSellable(a, day).value;
    ReleaseDueIsQuiet(a, day);
    QuietKeepsGood(a, released, inputs.capital, day);
    var (ex, declared) := ExDates(released, inputs.actions, day, 0.0).value;
    ExDatesKeepGood(released, inputs.actions, day, 0.0, inputs.capital);
    var listed := PayAndList(ex, inputs.actions, day).value;
    PayAndListIsQuiet(ex, inputs.actions, day);
    QuietKeepsGood(ex, listed, inputs.capital, day);
    if day in run.pending {
      DueTrades(inputs.market, listed, run.strategy.capital, day, run.pending[day]);
      var fills := ExecuteDue(inputs.market, listed, run.strategy.capital, day, run.pending[day]).value.fills;
      TradesKeepGood(inputs.market, listed, inputs.capital, day, fills.trades, fills.account);
    }
  }

  lemma CloseDayKeepsGood(inputs: Inputs, run: Run, morning: Morning, day: Date)
    requires SoundInputs(inputs) && CursorMatches(run, inputs.capital) && run.strategy.capital == inputs.capital
    requires Good(morning.fills.account, inputs.capital, day)
    requires run.account.ledger <= morning.fills.account.ledger
    requires CloseDay(inputs, run, morning, day).Ok?
    ensures var closed := CloseDay(inputs, run, morning, day).value;
            && GoodRun(inputs, closed, day)
            && Replay(inputs.capital, closed.account.ledger).value.positions
               == Replay(inputs.capital, morning.fills.account.ledger).value.positions
  {
    var closed := CloseDay(inputs, run, morning, day).value;
    var a := morning.fills.account;
    var nav := closed.daily[|closed.daily| - 1].nav;
    var valued := Accounts.RecordValuation(a, day, nav);
    ValuationKeepsGood(a, inputs.capital, day, nav);
    RecordAllIsQuiet(valued, inputs.actions, day);
    QuietKeepsGood(valued, closed.account, inputs.capital, day);
    SilentEventsChangeNothing(inputs.capital, valued.ledger, closed.account.ledger);
    CursorSurvives(run, closed.account.ledger, inputs.capital);
  }

  lemma DecideDayKeepsGood(inputs: Inputs, run: Run, day: Date)
    requires GoodRun(inputs, run, day) && DecideDay(inputs, run, day).Ok?
    ensures GoodRun(inputs, DecideDay(inputs, run, day).value, day)
  {
    if inputs.isDecisionDay(day) {
      CursorSurvives(run, run.account.ledger, inputs.capital);
      assert run.account.ledger[..|run.account.ledger|] == run.account.ledger;
      FoldKeepsCapital(run.strategy, From(run.account.ledger, run.cursor));
    }
  }

  lemma RunDayKeepsGood(inputs: Inputs, run: Run, day: Date)
    requires SoundInputs(inputs) && GoodRun(inputs, run, day) && RunDay(inputs, run, day).Ok?
    ensures GoodRun(inputs, RunDay(inputs, run, day).value, day)
  {
    OpenDayKeepsGood(inputs, run, day);
    var morning := OpenDay(inputs, run, day).value;
    CloseDayKeepsGood(inputs, run, morning, day);
    DecideDayKeepsGood(inputs, CloseDay(inputs, run, morning, day).value, day);
  }

  lemma LaterDay(inputs: Inputs, run: Run, day: Date, later: Date)
    requires GoodRun(inputs, run, day) && day <= later
    ensures GoodRun(inputs, run, later)
  {
  }

  lemma {:induction false} EveryRunIsGood(inputs: Inputs, days: seq<Date>, day: Date)
    requires SoundInputs(inputs) && Increasing(days) && RunDays(inputs, days).Ok?
    requires days != [] ==> days[|days| - 1] <= day
    ensures GoodRun(inputs, RunDays(inputs, days).value, day)
    decreases |days|
  {
    if days == [] {
      StartIsGood(inputs, day);
    } else {
      var last := days[|days| - 1];
      EveryRunIsGood(inputs, days[..|days| - 1], last);
      RunDayKeepsGood(inputs, RunDays(inputs, days[..|days| - 1]).value, last);
      LaterDay(inputs, RunDays(inputs, days).value, last, day);
    }
  }

  /** Cash conservation. After any days of any run, available plus receivable cash is the initial
      capital, less every buy with its fees, plus every sell net of fees, plus declared dividends. */
  lemma CashIsConserved(inputs: Inputs, days: seq<Date>)
    requires SoundInputs(inputs) && Increasing(days) && RunDays(inputs, days).Ok?
    ensures var a := RunDays(inputs, days).value.account;
            a.cash + a.receivable == LedgerCash(a.ledger) && a.cash >= 0.0 && a.receivable >= 0.0
  {
    EveryRunIsGood(inputs, days, if days == [] then 0 else days[|days| - 1]);
  }

  /** The strategy state never drifts from the account. After any days of any run, folding the
      ledger chunk by chunk from the cursor gives exactly the replay of the whole ledger, it never
      refuses an event, and it tracks the account's position in every security. */
  lemma StrategyStateFollowsTheAccount(inputs: Inputs, days: seq<Date>)
    requires SoundInputs(inputs) && Increasing(days) && RunDays(inputs, days).Ok?
    ensures var run := RunDays(inputs, days).value;
            && FinalState(run) == Replay(inputs.capital, run.account.ledger)
            && FinalState(run).Ok?
            && forall s :: PositionOf(FinalState(run).value, s).quantity == Get(run.account.positions, s)
                        && ExitConsistent(PositionOf(FinalState(run).value, s))
  {
    var run := RunDays(inputs, days).value;
    EveryRunIsGood(inputs, days, if days == [] then 0 else days[|days| - 1]);
    CursorSurvives(run, run.account.ledger, inputs.capital);
    assert Agrees(FinalState(run).value, run.account.positions);
  }

  /** Nor does the fold refuse in the middle of a day: when a trading day gets as far as its
      closing decision, the fold that precedes the decision succeeds on the full ledger. */
  lemma ReducerErrorsAreUnreachable(inputs: Inputs, days: seq<Date>, day: Date)
    requires SoundInputs(inputs) && Increasing(days + [day]) && RunDays(inputs, days).Ok?
    requires OpenDay(inputs, RunDays(inputs, days).value, day).Ok?
    requires CloseDay(inputs, RunDays(inputs, days).value,
                      OpenDay(inputs, RunDays(inputs, days).value, day).value, day).Ok?
    ensures var run := RunDays(inputs, days).value;
            var closed := CloseDay(inputs, run, OpenDay(inputs, run, day).value, day).value;
            Fold(closed.strategy, From(closed.account.ledger, closed.cursor)).Ok?
  {
    var run := RunDays(inputs, days).value;
    assert forall i | 0 <= i < |days| :: (days + [day])[i] == days[i];
    assert days != [] ==> (days + [day])[|days| - 1] < (days + [day])[|days|];
    EveryRunIsGood(inputs, days, day);
    OpenDayKeepsGood(inputs, run, day);
    var morning := OpenDay(inputs, run, day).value;
    CloseDayKeepsGood(inputs, run, morning, day);
    var closed := CloseDay(inputs, run, morning, day).value;
    CursorSurvives(closed, closed.account.ledger, inputs.capital);
  }
}
