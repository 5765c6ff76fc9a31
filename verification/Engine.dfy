/** The daily backtest loop: releases, corporate actions, execution, valuation, contribution,
    entitlements and the closing decision, first as a fold over days, then as the loop itself. */
module Engine {
  import opened Base
  import opened Execution
  import opened Accounts
  import opened Reducer
  import opened StagedDrawdown
  import opened IntentExecutor
  import opened AllocationExecutor
  import Rebalance

  datatype Kind = CASH_DIVIDEND | STOCK_DISTRIBUTION | SPLIT | UNSUPPORTED

  datatype Action = Action(
    event: EventId, security: Id, record: Date, ex: Date, pay: Date, list: Date,
    cashPerShare: real, stockRatio: real, kind: Kind, splitRatio: real)

  datatype Decision = Decision(effective: Date, intents: seq<Intent>)
  datatype Allocation = Allocation(effective: Date, targets: seq<Rebalance.Target>)

  /** Everything the run reads. Market values and the strategy are functions of what they may see. A
      stateful strategy gets the folded ledger and orders intents; any other gives target weights. */
  datatype Inputs = Inputs(
    market: Market, actions: seq<Action>, capital: real,
    marketValue: (Date, map<Id, int>) -> Result<(real, real)>,
    benchmark: Date -> Option<real>,
    isDecisionDay: Date -> bool,
    stateful: bool,
    decide: (Date, Snapshot) -> Result<Decision>,
    allocate: Date -> Result<Allocation>)

  datatype Contribution = Contribution(stock: real, etf: real, cashCost: real)

  /** What a day reports besides its balances. */
  datatype Figures = Figures(
    dailyReturn: Option<real>, benchmark: Option<PositiveValue>, benchmarkNav: Option<real>,
    benchmarkReturn: Option<real>, opportunityCost: Option<real>, peak: PositiveValue, drawdown: real,
    exposure: real, oneWay: real, twoWay: real)

  datatype DayRecord = DayRecord(
    date: Date, nav: PositiveValue, cash: real, receivable: real, stock: real, etf: real,
    contribution: Option<Contribution>, figures: Figures)

  /** A decision waiting for its effective day. */
  datatype Due = TradeIntents(intents: seq<Intent>) | TargetWeights(targets: seq<Rebalance.Target>)

  datatype Run = Run(
    account: Account, pending: map<Date, Due>, strategy: Snapshot, cursor: nat,
    trades: seq<(Record, Asset)>, unfilled: seq<UnfilledRecord>, daily: seq<DayRecord>)

  const UNSUPPORTED_ACTION := "BACKTEST_CORPORATE_ACTION_UNSUPPORTED"
  const MISMATCH := "PERFORMANCE_CONTRIBUTION_MISMATCH"

  predicate Whole(x: real) {
    x == x.Floor as real
  }

  function Ratio(action: Action): real {
    if action.kind == SPLIT then action.splitRatio else action.stockRatio
  }

  function Times(quantity: int, factor: real): real {
    quantity as real * factor
  }

  function EntitlementFor(a: Account, action: Action): Result<Entitlement> {
    var quantity := Get(a.positions, action.security);
    var stock := Times(quantity, Ratio(action));
    var sellable := Times(Get(a.sellable, action.security), Ratio(action));
    if quantity != 0 && action.kind == UNSUPPORTED then Err(UNSUPPORTED_ACTION)
    else if !Whole(stock) || !Whole(sellable) then Err(UNSUPPORTED_ACTION)
    else
      Ok(Entitlement(action.security, Times(quantity, action.cashPerShare), stock.Floor,
                     if action.kind == SPLIT then sellable.Floor else 0))
  }

  function RecordOne(a: Account, action: Action): Result<Account> {
    var e :- EntitlementFor(a, action);
    Accounts.RecordEntitlement(a, action.event, e)
  }

  function RecordAll(a: Account, actions: seq<Action>, day: Date): Result<Account>
    decreases |actions|
  {
    if actions == [] then Ok(a)
    else
      var next :- if actions[0].record == day then RecordOne(a, actions[0]) else Ok(a);
      RecordAll(next, actions[1..], day)
  }

  predicate ExDue(a: Account, action: Action, day: Date) {
    action.ex == day && action.event in a.entitlements
  }

  function ExDates(a: Account, actions: seq<Action>, day: Date, declared: real): Result<(Account, real)>
    decreases |actions|
  {
    if actions == [] then Ok((a, declared))
    else if ExDue(a, actions[0], day) then
      var next :- ApplyExDate(a, actions[0].event, actions[0].kind == SPLIT);
      ExDates(next, actions[1..], day, declared + a.entitlements[actions[0].event].cash)
    else ExDates(a, actions[1..], day, declared)
  }

  function PayAndListOne(a: Account, action: Action, day: Date): Result<Account> {
    if action.event in a.entitlements then
      var paid :- if action.pay == day then PayCash(a, action.event) else Ok(a);
      if action.list == day then ReleaseStock(paid, action.event, action.kind == SPLIT) else Ok(paid)
    else Ok(a)
  }

  function PayAndList(a: Account, actions: seq<Action>, day: Date): Result<Account>
    decreases |actions|
  {
    if actions == [] then Ok(a)
    else
      var next :- PayAndListOne(a, actions[0], day);
      PayAndList(next, actions[1..], day)
  }

  function Flow(trades: seq<(Record, Asset)>, asset: Asset, side: Side): real {
    if trades == [] then 0.0
    else
      var last := trades[|trades| - 1];
      Flow(trades[..|trades| - 1], asset, side) + if last.1 == asset && last.0.side == side then last.0.gross else 0.0
  }

  /** Splits the day's return between stocks, the fund and cash costs, and checks the sum. */
  function Contribute(
    navBegin: real, navEnd: real, stockBegin: real, stockEnd: real, etfBegin: real, etfEnd: real,
    cashBegin: real, cashEnd: real, dividends: real, trades: seq<(Record, Asset)>): Result<Contribution>
  {
    var stockBuys, stockSells := Flow(trades, A_SHARE, BUY), Flow(trades, A_SHARE, SELL);
    var etfBuys, etfSells := Flow(trades, CSI300_ETF, BUY), Flow(trades, CSI300_ETF, SELL);
    if navBegin <= 0.0 then Err(MISMATCH)
    else
      var stock := stockEnd - stockBegin - stockBuys + stockSells + dividends;
      var etf := etfEnd - etfBegin - etfBuys + etfSells;
      var cash := cashEnd - cashBegin + stockBuys + etfBuys - stockSells - etfSells - dividends;
      var result := Contribution(stock / navBegin, etf / navBegin, cash / navBegin);
      var gap := result.stock + result.etf + result.cashCost - (navEnd / navBegin - 1.0);
      if Absolute(gap) > 0.0000000001 then Err(MISMATCH)
      else Ok(result)
  }

  function DayContribution(
    daily: seq<DayRecord>, nav: real, stock: real, etf: real, cash: real, dividends: real,
    trades: seq<(Record, Asset)>): Result<Option<Contribution>>
  {
    if daily == [] then Ok(None)
    else
      var last := daily[|daily| - 1];
      var c :- Contribute(last.nav, nav, last.stock, stock, last.etf, etf, last.cash + last.receivable, cash,
                          dividends, trades);
      Ok(Some(c))
  }

  // ----- the day's figures

  function TurnoverNotional(trades: seq<(Record, Asset)>): real {
    if trades == [] then 0.0
    else TurnoverNotional(trades[..|trades| - 1]) + trades[|trades| - 1].0.gross
  }

  /** The first benchmark close the run has seen. */
  function BenchmarkBase(daily: seq<DayRecord>, close: Option<PositiveValue>): Option<PositiveValue> {
    if daily == [] then close
    else if daily[0].figures.benchmark.Some? then daily[0].figures.benchmark
    else BenchmarkBase(daily[1..], close)
  }

  function BenchmarkClose(inputs: Inputs, day: Date): Result<Option<PositiveValue>> {
    var value := inputs.benchmark(day);
    if value.None? then Ok(None)
    else if value.value <= 0.0 then Err(MISSING)
    else Ok(Some(value.value))
  }

  function Peak(capital: real, daily: seq<DayRecord>, nav: PositiveValue): PositiveValue {
    MaxReal(if daily == [] then capital else daily[|daily| - 1].figures.peak, nav)
  }

  function Grown(now: real, base: Option<PositiveValue>): Option<real> {
    if base.None? then None else Some(now / base.value)
  }

  function Less(x: Option<real>, y: real): Option<real> {
    if x.None? then None else Some(x.value - y)
  }

  function FiguresOf(
    capital: real, daily: seq<DayRecord>, nav: PositiveValue, invested: real, close: Option<PositiveValue>,
    trades: seq<(Record, Asset)>, turnover: Option<(real, PositiveValue)>): Figures
  {
    var last := if daily == [] then None else Some(daily[|daily| - 1]);
    var previousNav := if last.None? then None else Some(last.value.nav);
    var previousClose := if last.None? then None else last.value.figures.benchmark;
    var benchmarkReturn := if close.None? then None else Less(Grown(close.value, previousClose), 1.0);
    var peak := Peak(capital, daily, nav);
    Figures(
      Less(Grown(nav, previousNav), 1.0),
      close,
      if close.None? then None else Grown(close.value, BenchmarkBase(daily, close)),
      benchmarkReturn,
      if last.None? || benchmarkReturn.None? then None
      else Some((last.value.cash + last.value.receivable) / last.value.nav * benchmarkReturn.value),
      peak,
      nav / peak - 1.0,
      invested / nav,
      TurnoverNotional(trades) / (if turnover.Some? then turnover.value.1 else nav),
      if turnover.Some? then turnover.value.0 else 0.0)
  }

  // ----- a day

  /** The day up to and including execution. */
  datatype Morning = Morning(fills: Fills, declared: real, turnover: Option<(real, PositiveValue)>)

  /** The router picks the executor by the kind of decision. */
  function ExecuteDue(m: Market, a: Account, capital: real, day: Date, due: Due): Result<Executed> {
    match due
    case TradeIntents(intents) => ExecuteDecision(m, a, capital, day, intents)
    case TargetWeights(targets) => ExecuteAllocation(m, a, day, targets)
  }

  function MorningOf(executed: Executed, declared: real): Morning {
    Morning(executed.fills, declared, Some((executed.turnover, executed.base)))
  }

  function OpenDay(inputs: Inputs, run: Run, day: Date): Result<Morning> {
    var released :- Accounts.ReleaseSellable(run.account, day);
    var ex :- ExDates(released, inputs.actions, day, 0.0);
    var listed :- PayAndList(ex.0, inputs.actions, day);
    if day !in run.pending then Ok(Morning(Fills(listed, [], []), ex.1, None))
    else
      var executed :- ExecuteDue(inputs.market, listed, run.strategy.capital, day, run.pending[day]);
      Ok(MorningOf(executed, ex.1))
  }

  /** Valuation, figures, contribution and entitlements after execution. */
  function CloseDay(inputs: Inputs, run: Run, morning: Morning, day: Date): Result<Run> {
    var a := morning.fills.account;
    var values :- inputs.marketValue(day, a.positions);
    var nav := a.cash + a.receivable + values.0 + values.1;
    if nav <= 0.0 then Err(BROKEN)
    else
      var close :- BenchmarkClose(inputs, day);
      var contribution :- DayContribution(run.daily, nav, values.0, values.1, a.cash + a.receivable,
                                          morning.declared, morning.fills.trades);
      var figures := FiguresOf(inputs.capital, run.daily, nav, values.0 + values.1, close,
                               morning.fills.trades, morning.turnover);
      var recorded :- RecordAll(Accounts.RecordValuation(a, day, nav), inputs.actions, day);
      Ok(run.(account := recorded, pending := run.pending - {day},
              trades := run.trades + morning.fills.trades, unfilled := run.unfilled + morning.fills.unfilled,
              daily := run.daily
                       + [DayRecord(day, nav, a.cash, a.receivable, values.0, values.1, contribution, figures)]))
  }

  /** `ledger[cursor:]` */
  function From(ledger: seq<Event>, cursor: nat): seq<Event> {
    if cursor <= |ledger| then ledger[cursor..] else []
  }

  /** The closing decision. A stateful strategy first gets the new ledger events folded in. */
  function DecideDay(inputs: Inputs, run: Run, day: Date): Result<Run>
  {
    if !inputs.isDecisionDay(day) then Ok(run)
    else if inputs.stateful then
      var state :- Fold(run.strategy, From(run.account.ledger, run.cursor));
      var decision :- inputs.decide(day, state);
      if decision.effective <= day || decision.effective in run.pending then Err("STRATEGY_INTENT_INVALID")
      else
        Ok(run.(strategy := state, cursor := |run.account.ledger|,
                pending := run.pending[decision.effective := TradeIntents(decision.intents)]))
    else
      var allocation :- inputs.allocate(day);
      if allocation.effective <= day || allocation.effective in run.pending then Err("PORTFOLIO_INVALID_TARGET")
      else Ok(run.(pending := run.pending[allocation.effective := TargetWeights(allocation.targets)]))
  }

  function RunDay(inputs: Inputs, run: Run, day: Date): Result<Run> {
    var morning :- OpenDay(inputs, run, day);
    var closed :- CloseDay(inputs, run, morning, day);
    DecideDay(inputs, closed, day)
  }

  function Start(inputs: Inputs): Result<Run> {
    if inputs.capital <= 0.0 then Err("CONFIG_VALUE_INVALID")
    else
      var account :- Open(inputs.capital, map[], map[]);
      var strategy :- Initial(inputs.capital);
      Ok(Run(account, map[], strategy, 0, [], [], []))
  }

  /** The state after the given trading days; the first refusal ends the run. */
  function RunDays(inputs: Inputs, days: seq<Date>): Result<Run>
  {
    if days == [] then Start(inputs)
    else
      var before :- RunDays(inputs, days[..|days| - 1]);
      RunDay(inputs, before, days[|days| - 1])
  }

  /** The final fold over what the last decision had not seen. */
  function FinalState(run: Run): Result<Snapshot>
  {
    Fold(run.strategy, From(run.account.ledger, run.cursor))
  }
}

/** The engine loop over the mutable account. */
module BacktestEngines {
  import opened Base
  import opened Execution
  import opened Accounts
  import opened SimulatedAccounts
  import opened Reducer
  import opened IntentExecutor
  import opened AllocationExecutor
  import opened Engine

  /** Only a stateful run reports a strategy state. */
  datatype BacktestResult = BacktestResult(
    trades: seq<(Record, Asset)>, unfilled: seq<UnfilledRecord>, daily: seq<DayRecord>, state: Option<Snapshot>)

  function Backtest(inputs: Inputs, days: seq<Date>): Result<BacktestResult> {
    if days == [] then (if inputs.capital <= 0.0 then Err("CONFIG_VALUE_INVALID") else Err("DATA_REQUIRED_MISSING"))
    else
      var run :- RunDays(inputs, days);
      if !inputs.stateful then Ok(BacktestResult(run.trades, run.unfilled, run.daily, None))
      else
        var state :- FinalState(run);
        Ok(BacktestResult(run.trades, run.unfilled, run.daily, Some(state)))
  }

  method ApplyExDates(account: SimulatedAccount, actions: seq<Action>, day: Date) returns (r: Result<real>)
    modifies account
    ensures match ExDates(old(account.State()), actions, day, 0.0)
            case Ok(done) => r == Ok(done.1) && account.State() == done.0
            case Err(code) => r == Err(code)
  {
    var declared := 0.0;
    for i := 0 to |actions|
      invariant ExDates(account.State(), actions[i..], day, declared)
             == ExDates(old(account.State()), actions, day, 0.0)
    {
      var action := actions[i];
      if action.ex == day && action.event in account.entitlements {
        var cash :- account.ApplyEntitlementExDate(action.event, action.kind == SPLIT);
        declared := declared + cash;
      }
    }
    return Ok(declared);
  }

  method ApplyPayAndList(account: SimulatedAccount, actions: seq<Action>, day: Date) returns (r: Result<()>)
    modifies account
    ensures Took(r, account.State(), PayAndList(old(account.State()), actions, day))
  {
    for i := 0 to |actions|
      invariant PayAndList(account.State(), actions[i..], day) == PayAndList(old(account.State()), actions, day)
    {
      var action := actions[i];
      if action.event in account.entitlements {
        if action.pay == day {
          var _ :- account.PayEntitlementCash(action.event);
        }
        if action.list == day {
          var _ :- account.ReleaseEntitlementStock(action.event, action.kind == SPLIT);
        }
      }
    }
    return Ok(());
  }

  method RecordEntitlements(account: SimulatedAccount, actions: seq<Action>, day: Date) returns (r: Result<()>)
    modifies account
    ensures Took(r, account.State(), RecordAll(old(account.State()), actions, day))
  {
    for i := 0 to |actions|
      invariant RecordAll(account.State(), actions[i..], day) == RecordAll(old(account.State()), actions, day)
    {
      if actions[i].record == day {
        var e :- EntitlementFor(account.State(), actions[i]);
        var _ :- account.RecordEntitlement(actions[i].event, e);
      }
    }
    return Ok(());
  }

  method ExecuteDueOn(account: SimulatedAccount, m: Market, capital: real, day: Date, due: Due)
    returns (r: Result<Report>)
    modifies account
    ensures match ExecuteDue(m, old(account.State()), capital, day, due)
            case Ok(executed) => r == Ok(ReportOf(executed)) && account.State() == executed.fills.account
            case Err(code) => r == Err(code)
  {
    match due {
      case TradeIntents(intents) => r := ExecuteOn(account, m, capital, day, intents);
      case TargetWeights(targets) => r := ExecuteAllocationOn(account, m, day, targets);
    }
  }

  /** What a morning leaves for the close besides the account. */
  datatype Opening = Opening(
    trades: seq<(Record, Asset)>, unfilled: seq<UnfilledRecord>, declared: real,
    turnover: Option<(real, PositiveValue)>)

  function OpeningOf(morning: Morning): Opening {
    Opening(morning.fills.trades, morning.fills.unfilled, morning.declared, morning.turnover)
  }

  /** Everything up to and including the day's executions. */
  method OpenDayOn(
    account: SimulatedAccount, inputs: Inputs, day: Date, pending: map<Date, Due>, capital: real, ghost run: Run)
    returns (r: Result<Opening>)
    requires run.account == account.State() && run.pending == pending && run.strategy.capital == capital
    modifies account
    ensures match OpenDay(inputs, run, day)
            case Ok(m) => r == Ok(OpeningOf(m)) && account.State() == m.fills.account
            case Err(code) => r == Err(code)
  {
    hide ExecuteDue, ExDates, PayAndList;
    var _ :- account.ReleaseSellable(day);
    var declared :- ApplyExDates(account, inputs.actions, day);
    var _ :- ApplyPayAndList(account, inputs.actions, day);
    if day !in pending {
      return Ok(Opening([], [], declared, None));
    }
    var report :- ExecuteDueOn(account, inputs.market, capital, day, pending[day]);
    return Ok(Opening(report.trades, report.unfilled, declared, Some((report.turnover, report.base))));
  }

  /** Valuation, figures, contribution and entitlements. */
  method CloseDayOn(
    account: SimulatedAccount, inputs: Inputs, day: Date, daily: seq<DayRecord>, opening: Opening,
    ghost run: Run, ghost morning: Morning)
    returns (r: Result<DayRecord>)
    requires run.daily == daily && opening == OpeningOf(morning) && morning.fills.account == account.State()
    modifies account
    ensures match CloseDay(inputs, run, morning, day)
            case Ok(closed) =>
              r.Ok? && closed.daily == daily + [r.value] && account.State() == closed.account
            case Err(code) => r == Err(code)
  {
    hide FiguresOf, DayContribution, RecordAll;
    var values :- inputs.marketValue(day, account.positions);
    var cash := account.cashAvailable + account.cashReceivable;
    var nav := cash + values.0 + values.1;
    if nav <= 0.0 {
      return Err(BROKEN);
    }
    var close :- BenchmarkClose(inputs, day);
    var contribution :- DayContribution(daily, nav, values.0, values.1, cash, opening.declared, opening.trades);
    var figures := FiguresOf(inputs.capital, daily, nav, values.0 + values.1, close, opening.trades, opening.turnover);
    var point := DayRecord(day, nav, account.cashAvailable, account.cashReceivable, values.0, values.1, contribution,
                           figures);
    account.RecordValuation(day, nav);
    var _ :- RecordEntitlements(account, inputs.actions, day);
    return Ok(point);
  }

  /** The fold of new events and the closing decision. */
  method DecideDayOn(
    account: SimulatedAccount, inputs: Inputs, day: Date, state: Snapshot, cursor: nat,
    pending: map<Date, Due>, ghost run: Run)
    returns (r: Result<(Snapshot, nat, map<Date, Due>)>)
    requires run.account == account.State() && run.strategy == state && run.cursor == cursor && run.pending == pending
    ensures match DecideDay(inputs, run, day)
            case Ok(next) =>
              r.Ok? && next == run.(strategy := r.value.0, cursor := r.value.1, pending := r.value.2)
            case Err(code) => r == Err(code)
  {
    hide Fold;
    if !inputs.isDecisionDay(day) {
      return Ok((state, cursor, pending));
    }
    if inputs.stateful {
      var folded :- FoldEvents(state, From(account.ledger, cursor));
      var decision :- inputs.decide(day, folded);
      if decision.effective <= day || decision.effective in pending {
        return Err("STRATEGY_INTENT_INVALID");
      }
      return Ok((folded, |account.ledger|, pending[decision.effective := TradeIntents(decision.intents)]));
    }
    var allocation :- inputs.allocate(day);
    if allocation.effective <= day || allocation.effective in pending {
      return Err("PORTFOLIO_INVALID_TARGET");
    }
    return Ok((state, cursor, pending[allocation.effective := TargetWeights(allocation.targets)]));
  }

  /** Runs the days in order over one account object, and returns exactly what the fold over days
      defines, refusals included. */
  method RunBacktest(inputs: Inputs, days: seq<Date>) returns (r: Result<BacktestResult>)
    ensures r == Backtest(inputs, days)
  {
    hide OpenDay, DecideDay, RecordAll, DayContribution, FiguresOf, BenchmarkClose;
    if inputs.capital <= 0.0 {
      RefusalPersists(inputs, days, 0);
      return Err("CONFIG_VALUE_INVALID");
    }
    if days == [] {
      return Err("DATA_REQUIRED_MISSING");
    }
    var account := new SimulatedAccount(inputs.capital, map[], map[]);
    var pending: map<Date, Due> := map[];
    var trades: seq<(Record, Asset)>, unfilled: seq<UnfilledRecord>, daily: seq<DayRecord> := [], [], [];
    var state := Snapshot(inputs.capital, None, map[]);
    var cursor: nat := 0;

    for i := 0 to |days|
      invariant fresh(account)
      invariant RunDays(inputs, days[..i])
             == Ok(Run(account.State(), pending, state, cursor, trades, unfilled, daily))
    {
      var day := days[i];
      ghost var before := Run(account.State(), pending, state, cursor, trades, unfilled, daily);
      FirstRefusalEndsTheRun(inputs, days, i, before);
      var opening :- OpenDayOn(account, inputs, day, pending, state.capital, before);
      ghost var morning := OpenDay(inputs, before, day).value;
      pending := pending - {day};
      var point :- CloseDayOn(account, inputs, day, daily, opening, before, morning);
      daily := daily + [point];
      trades, unfilled := trades + opening.trades, unfilled + opening.unfilled;
      ghost var closed := CloseDay(inputs, before, morning, day).value;
      assert closed == Run(account.State(), pending, state, cursor, trades, unfilled, daily);

      var decided :- DecideDayOn(account, inputs, day, state, cursor, pending, closed);
      state, cursor, pending := decided.0, decided.1, decided.2;
    }
    hide Fold;
    assert days[..|days|] == days;
    if !inputs.stateful {
      return Ok(BacktestResult(trades, unfilled, daily, None));
    }
    var final :- FoldEvents(state, From(account.ledger, cursor));
    return Ok(BacktestResult(trades, unfilled, daily, Some(final)));
  }

  lemma RefusalPersists(inputs: Inputs, days: seq<Date>, i: nat)
    requires i <= |days| && RunDays(inputs, days[..i]).Err?
    ensures RunDays(inputs, days) == Err(RunDays(inputs, days[..i]).code)
    decreases |days| - i
  {
    if i < |days| {
      assert days[..i + 1][..i] == days[..i];
      RefusalPersists(inputs, days, i + 1);
    } else {
      assert days[..i] == days;
    }
  }

  lemma FirstRefusalEndsTheRun(inputs: Inputs, days: seq<Date>, i: nat, before: Run)
    requires i < |days| && RunDays(inputs, days[..i]) == Ok(before)
    ensures RunDay(inputs, before, days[i]).Err? ==>
              Backtest(inputs, days) == Err(RunDay(inputs, before, days[i]).code)
    ensures RunDays(inputs, days[..i + 1]) == RunDay(inputs, before, days[i])
  {
    assert days[..i + 1][..i] == days[..i];
    if RunDay(inputs, before, days[i]).Err? {
      RefusalPersists(inputs, days, i + 1);
    }
  }
}
