/** What a day of a run reports, in terms of the days before it, the market values and the day's own trades. */
module Figures {
  import opened Base
  import opened Numeric
  import opened Execution
  import opened Accounts
  import opened IntentExecutor
  import opened AllocationExecutor
  import opened Engine
  import Entitlements
  import Orders
  import Rebalance
  import Reducer
  import Shares
  import Solvency

  // ----- the day's trades

  /** What was bought or sold of one kind of asset. */
  function Amount(trades: seq<(Record, Asset)>, asset: Asset, side: Side): real {
    if trades == [] then 0.0
    else
      var (r, kind) := trades[0];
      (if kind == asset && r.side == side then r.gross else 0.0) + Amount(trades[1..], asset, side)
  }

  function AllAmounts(trades: seq<(Record, Asset)>): real {
    Amount(trades, A_SHARE, BUY) + Amount(trades, A_SHARE, SELL)
    + Amount(trades, CSI300_ETF, BUY) + Amount(trades, CSI300_ETF, SELL)
  }

  lemma {:induction false} AmountAppends(trades: seq<(Record, Asset)>, asset: Asset, side: Side)
    requires trades != []
    ensures var n := |trades| - 1;
            Amount(trades, asset, side)
            == Amount(trades[..n], asset, side)
               + if trades[n].1 == asset && trades[n].0.side == side then trades[n].0.gross else 0.0
  {
    var n := |trades| - 1;
    if n > 0 {
      AmountAppends(trades[1..], asset, side);
      assert trades[..n][1..] == trades[1..][..n - 1];
    }
  }

  lemma {:induction false} FlowIsTheAmount(trades: seq<(Record, Asset)>, asset: Asset, side: Side)
    ensures Flow(trades, asset, side) == Amount(trades, asset, side)
  {
    if trades != [] {
      FlowIsTheAmount(trades[..|trades| - 1], asset, side);
      AmountAppends(trades, asset, side);
    }
  }

  lemma {:induction false} NotionalIsAllAmounts(trades: seq<(Record, Asset)>)
    ensures TurnoverNotional(trades) == AllAmounts(trades)
  {
    if trades != [] {
      NotionalIsAllAmounts(trades[..|trades| - 1]);
      AmountAppends(trades, A_SHARE, BUY);
      AmountAppends(trades, A_SHARE, SELL);
      AmountAppends(trades, CSI300_ETF, BUY);
      AmountAppends(trades, CSI300_ETF, SELL);
    }
  }

  // ----- what a day says

  /** The balances of the account, the market's values of its positions, and their sum. */
  ghost predicate Balances(inputs: Inputs, r: DayRecord, a: Account) {
    && r.cash == a.cash && r.receivable == a.receivable
    && inputs.marketValue(r.date, a.positions) == Ok((r.stock, r.etf))
    && r.nav == r.cash + r.receivable + r.stock + r.etf
    && r.figures.exposure * r.nav == r.stock + r.etf
  }

  /** Grown by the return, the one is the other. */
  predicate Grows(from: real, change: real, to: real) {
    from * (1.0 + change) == to
  }

  /** The first benchmark close of a run. */
  function FirstClose(daily: seq<DayRecord>): Option<PositiveValue> {
    if daily == [] then None
    else if daily[0].figures.benchmark.Some? then daily[0].figures.benchmark
    else FirstClose(daily[1..])
  }

  /** The value grows by the daily return from the day before; the first day has none. */
  predicate Returns(daily: seq<DayRecord>, r: DayRecord) {
    if daily == [] then r.figures.dailyReturn == None
    else
      var last := daily[|daily| - 1];
      r.figures.dailyReturn.Some? && Grows(last.nav, r.figures.dailyReturn.value, r.nav)
  }

  /** The benchmark: its close, its value from the first close of the run, its return from the day before, and what
      the cash of the day before missed by not being in it. */
  ghost predicate Benchmarks(inputs: Inputs, daily: seq<DayRecord>, r: DayRecord) {
    var close, first := inputs.benchmark(r.date), FirstClose(daily + [r]);
    && (r.figures.benchmark.None? <==> close.None?)
    && (close.Some? ==>
          && close.value == r.figures.benchmark.value && first.Some?
          && r.figures.benchmarkNav.Some? && r.figures.benchmarkNav.value * first.value == close.value)
    && (close.None? ==> r.figures.benchmarkNav.None?)
    && (r.figures.benchmarkReturn.Some? <==>
          close.Some? && daily != [] && daily[|daily| - 1].figures.benchmark.Some?)
    && (r.figures.opportunityCost.Some? <==> r.figures.benchmarkReturn.Some?)
    && (r.figures.benchmarkReturn.Some? ==>
          var last := daily[|daily| - 1];
          && Grows(last.figures.benchmark.value, r.figures.benchmarkReturn.value, close.value)
          && Missed(last, r.figures.opportunityCost.value, r.figures.benchmarkReturn.value))
  }

  predicate Missed(last: DayRecord, cost: real, change: real) {
    cost * last.nav == (last.cash + last.receivable) * change
  }

  /** Turnover: both kinds are zero on a day without a decision; otherwise the one-way figure sets the day's trades
      against the portfolio before them, and the two-way figure is the part of it that changed hands. */
  ghost predicate Turnovers(
    m: Market, r: DayRecord, today: seq<(Record, Asset)>, executed: bool, opening: Account, after: Account)
  {
    var ids := InOrder(opening.positions.Keys + after.positions.Keys);
    var was, now := Orders.ValueOf(m, r.date, opening, ids), Orders.ValueOf(m, r.date, after, ids);
    if executed then
      && was > 0.0 && now > 0.0
      && r.figures.oneWay * was == AllAmounts(today)
      && r.figures.twoWay
         == Orders.GainedBy(m, r.date, opening, after, ids, was as PositiveValue, now as PositiveValue)
    else today == [] && r.figures.oneWay == 0.0 && r.figures.twoWay == 0.0
  }

  /** The parts of the return: what stocks made, dividends included, what the fund made, and the rest in cash. */
  predicate Parts(daily: seq<DayRecord>, r: DayRecord, today: seq<(Record, Asset)>, declared: real) {
    if daily == [] then r.contribution == None
    else
      var last := daily[|daily| - 1];
      && r.contribution.Some?
      && r.contribution.value.stock * last.nav
         == r.stock - last.stock - Amount(today, A_SHARE, BUY) + Amount(today, A_SHARE, SELL) + declared
      && r.contribution.value.etf * last.nav
         == r.etf - last.etf - Amount(today, CSI300_ETF, BUY) + Amount(today, CSI300_ETF, SELL)
      && r.contribution.value.cashCost * last.nav
         == r.cash + r.receivable - last.cash - last.receivable - declared
            + Amount(today, A_SHARE, BUY) - Amount(today, A_SHARE, SELL)
            + Amount(today, CSI300_ETF, BUY) - Amount(today, CSI300_ETF, SELL)
  }

  // ----- each part

  lemma QuotientTimes(q: real, x: real, n: real)
    requires n > 0.0 && q == x / n
    ensures q * n == x
  {
    DivideThenMultiply(x, n);
  }

  lemma GrownBack(from: real, change: real, to: real)
    requires from > 0.0 && change == to / from - 1.0
    ensures Grows(from, change, to)
  {
    DivideThenMultiply(to, from);
    assert 1.0 + change == to / from;
    SameProduct(from, 1.0 + change, to / from);
  }

  lemma SameProduct(x: real, y: real, z: real)
    requires y == z
    ensures x * y == z * x
  {
  }

  /** The closing record of the day's morning. */
  ghost predicate Closes(inputs: Inputs, run: Run, morning: Morning, day: Date, r: DayRecord, closed: Run) {
    CloseDay(inputs, run, morning, day) == Ok(closed) && closed.daily == run.daily + [r]
  }

  lemma RecordBalances(inputs: Inputs, run: Run, morning: Morning, day: Date, r: DayRecord, closed: Run)
    requires Closes(inputs, run, morning, day, r, closed)
    ensures r.date == day && Balances(inputs, r, morning.fills.account)
  {
    hide DayContribution, RecordAll, BenchmarkClose;
    assert r == closed.daily[|run.daily|];
    assert r.figures.exposure == (r.stock + r.etf) / r.nav;
    QuotientTimes(r.figures.exposure, r.stock + r.etf, r.nav);
  }

  /** The figures of the day, as the close computes them. */
  lemma RecordFigures(inputs: Inputs, run: Run, morning: Morning, day: Date, r: DayRecord, closed: Run)
    requires Closes(inputs, run, morning, day, r, closed)
    ensures BenchmarkClose(inputs, day).Ok?
    ensures r.figures == FiguresOf(inputs.capital, run.daily, r.nav, r.stock + r.etf, BenchmarkClose(inputs, day).value,
                                   morning.fills.trades, morning.turnover)
    ensures DayContribution(run.daily, r.nav, r.stock, r.etf, r.cash + r.receivable, morning.declared,
                            morning.fills.trades) == Ok(r.contribution)
  {
    hide DayContribution, RecordAll, BenchmarkClose, FiguresOf;
    assert r == closed.daily[|run.daily|];
  }

  lemma FiguresReturn(
    capital: real, r: DayRecord, daily: seq<DayRecord>, invested: real, close: Option<PositiveValue>,
    trades: seq<(Record, Asset)>, turnover: Option<(real, PositiveValue)>)
    requires r.figures == FiguresOf(capital, daily, r.nav, invested, close, trades, turnover)
    ensures Returns(daily, r)
  {
    if daily != [] {
      GrownBack(daily[|daily| - 1].nav, r.figures.dailyReturn.value, r.nav);
    }
  }

  lemma {:induction false} BaseIsTheFirst(daily: seq<DayRecord>, r: DayRecord)
    ensures BenchmarkBase(daily, r.figures.benchmark) == FirstClose(daily + [r])
  {
    if daily != [] {
      BaseIsTheFirst(daily[1..], r);
      assert (daily + [r])[1..] == daily[1..] + [r];
    }
  }

  lemma CloseMeans(inputs: Inputs, day: Date)
    requires BenchmarkClose(inputs, day).Ok?
    ensures var close, found := inputs.benchmark(day), BenchmarkClose(inputs, day).value;
            (close.None? <==> found.None?) && (close.Some? ==> found.value == close.value)
  {
  }

  lemma FiguresBenchmark(
    inputs: Inputs, r: DayRecord, daily: seq<DayRecord>, invested: real, trades: seq<(Record, Asset)>,
    turnover: Option<(real, PositiveValue)>)
    requires BenchmarkClose(inputs, r.date).Ok?
    requires var close := BenchmarkClose(inputs, r.date).value;
             r.figures == FiguresOf(inputs.capital, daily, r.nav, invested, close, trades, turnover)
    ensures Benchmarks(inputs, daily, r)
  {
    hide BenchmarkClose, TurnoverNotional, BenchmarkBase, FirstClose;
    CloseMeans(inputs, r.date);
    BaseIsTheFirst(daily, r);
    var close := inputs.benchmark(r.date);
    if close.Some? {
      FirstExists(daily, r);
      QuotientTimes(r.figures.benchmarkNav.value, close.value, FirstClose(daily + [r]).value);
    }
    if r.figures.benchmarkReturn.Some? {
      var last := daily[|daily| - 1];
      GrownBack(last.figures.benchmark.value, r.figures.benchmarkReturn.value, close.value);
      CostIsMissed(last, r.figures.opportunityCost.value, r.figures.benchmarkReturn.value);
    }
  }

  lemma {:induction false} FirstExists(daily: seq<DayRecord>, r: DayRecord)
    requires r.figures.benchmark.Some?
    ensures FirstClose(daily + [r]).Some?
  {
    if daily != [] {
      FirstExists(daily[1..], r);
      assert (daily + [r])[1..] == daily[1..] + [r];
    }
  }

  lemma CostIsMissed(last: DayRecord, cost: real, change: real)
    requires cost == (last.cash + last.receivable) / last.nav * change
    ensures Missed(last, cost, change)
  {
    var share := (last.cash + last.receivable) / last.nav;
    QuotientTimes(share, last.cash + last.receivable, last.nav);
    assert cost * last.nav == share * change * last.nav;
    assert share * change * last.nav == (share * last.nav) * change;
  }

  lemma FiguresTurnover(
    capital: real, r: DayRecord, daily: seq<DayRecord>, invested: real, close: Option<PositiveValue>,
    trades: seq<(Record, Asset)>, turnover: Option<(real, PositiveValue)>)
    requires r.figures == FiguresOf(capital, daily, r.nav, invested, close, trades, turnover)
    ensures turnover.Some? ==>
              r.figures.twoWay == turnover.value.0 && r.figures.oneWay * turnover.value.1 == AllAmounts(trades)
    ensures turnover.None? ==> r.figures.twoWay == 0.0 && r.figures.oneWay * r.nav == AllAmounts(trades)
  {
    hide BenchmarkBase;
    NotionalIsAllAmounts(trades);
    QuotientTimes(r.figures.oneWay, AllAmounts(trades), if turnover.Some? then turnover.value.1 else r.nav);
  }

  /** The turnover of a morning is that of its decision, from the account at the open to the one at the close. */
  lemma MorningTurnover(inputs: Inputs, run: Run, day: Date)
    requires OpenDay(inputs, run, day).Ok?
    ensures Shares.AtOpen(inputs, run, day).Ok?
    ensures var morning, opening := OpenDay(inputs, run, day).value, Shares.AtOpen(inputs, run, day).value;
            && (day in run.pending <==> morning.turnover.Some?)
            && (day in run.pending ==>
                  Turnover(inputs.market, day, opening, morning.fills.account) == Ok(morning.turnover.value))
            && (day !in run.pending ==> morning.fills.trades == [])
  {
    hide Turnover, RunIntents, RunOrders, ExDates, PayAndList, Rebalance.PlanOf;
  }

  lemma MorningTurnovers(inputs: Inputs, run: Run, day: Date, r: DayRecord, closed: Run)
    requires OpenDay(inputs, run, day).Ok? && Closes(inputs, run, OpenDay(inputs, run, day).value, day, r, closed)
    ensures Shares.AtOpen(inputs, run, day).Ok?
    ensures var morning := OpenDay(inputs, run, day).value;
            Turnovers(inputs.market, r, morning.fills.trades, day in run.pending, Shares.AtOpen(inputs, run, day).value,
                      morning.fills.account)
  {
    hide OpenDay, FiguresOf, BenchmarkClose, Turnover, Orders.ValueOf, Orders.GainedBy, Shares.AtOpen, InOrder, Closes;
    hide AllAmounts;
    var morning := OpenDay(inputs, run, day).value;
    MorningTurnover(inputs, run, day);
    RecordBalances(inputs, run, morning, day, r, closed);
    RecordFigures(inputs, run, morning, day, r, closed);
    FiguresTurnover(inputs.capital, r, run.daily, r.stock + r.etf, BenchmarkClose(inputs, day).value,
                    morning.fills.trades, morning.turnover);
    if day in run.pending {
      Orders.TurnoverIsWhatMoved(inputs.market, day, Shares.AtOpen(inputs, run, day).value, morning.fills.account);
    } else {
      NothingTraded(r.figures.oneWay, r.nav);
    }
  }

  lemma NothingTraded(oneWay: real, nav: PositiveValue)
    requires oneWay * nav == AllAmounts([])
    ensures oneWay == 0.0
  {
  }

  lemma ContributionParts(
    daily: seq<DayRecord>, r: DayRecord, today: seq<(Record, Asset)>, declared: real)
    requires DayContribution(daily, r.nav, r.stock, r.etf, r.cash + r.receivable, declared, today) == Ok(r.contribution)
    ensures Parts(daily, r, today, declared)
  {
    hide Flow, Amount;
    FlowIsTheAmount(today, A_SHARE, BUY);
    FlowIsTheAmount(today, A_SHARE, SELL);
    FlowIsTheAmount(today, CSI300_ETF, BUY);
    FlowIsTheAmount(today, CSI300_ETF, SELL);
    if daily != [] {
      var last := daily[|daily| - 1];
      var c := r.contribution.value;
      var stock := r.stock - last.stock - Amount(today, A_SHARE, BUY) + Amount(today, A_SHARE, SELL) + declared;
      var etf := r.etf - last.etf - Amount(today, CSI300_ETF, BUY) + Amount(today, CSI300_ETF, SELL);
      var cash := r.cash + r.receivable - (last.cash + last.receivable)
                  + Amount(today, A_SHARE, BUY) + Amount(today, CSI300_ETF, BUY)
                  - Amount(today, A_SHARE, SELL) - Amount(today, CSI300_ETF, SELL) - declared;
      QuotientTimes(c.stock, stock, last.nav);
      QuotientTimes(c.etf, etf, last.nav);
      QuotientTimes(c.cashCost, cash, last.nav);
    }
  }

  // ----- every day of every run

  /** What the record of one day says, of the run before it and the account through the day. */
  ghost predicate Says(
    inputs: Inputs, run: Run, r: DayRecord, today: seq<(Record, Asset)>, opening: Account, after: Account)
  {
    && Balances(inputs, r, after)
    && Returns(run.daily, r) && Benchmarks(inputs, run.daily, r)
    && Turnovers(inputs.market, r, today, r.date in run.pending, opening, after)
    && Parts(run.daily, r, today,
             Entitlements.Today(run.account.entitlements, inputs.actions, Entitlements.EX_DATE, r.date))
  }

  /** Every day that a run completes adds one record, which says just that, and its own trades. */
  lemma DayMeans(inputs: Inputs, run: Run, day: Date)
    returns (r: DayRecord, today: seq<(Record, Asset)>, opening: Account, after: Account)
    requires RunDay(inputs, run, day).Ok?
    ensures var next := RunDay(inputs, run, day).value;
            && next.daily == run.daily + [r] && next.trades == run.trades + today
            && next.account.cash == after.cash && next.account.receivable == after.receivable
            && next.account.positions == after.positions
    ensures r.date == day && Shares.AtOpen(inputs, run, day) == Ok(opening)
    ensures Says(inputs, run, r, today, opening, after)
  {
    hide OpenDay, CloseDay, DecideDay, Balances, Returns, Benchmarks, Turnovers, Parts, FiguresOf, DayContribution;
    hide BenchmarkClose, Shares.AtOpen, Entitlements.Today;
    var morning := OpenDay(inputs, run, day).value;
    var closed := CloseDay(inputs, run, morning, day).value;
    today, after := morning.fills.trades, morning.fills.account;
    r := CloseAppends(inputs, run, morning, day);
    RecordBalances(inputs, run, morning, day, r, closed);
    RecordFigures(inputs, run, morning, day, r, closed);
    FiguresReturn(inputs.capital, r, run.daily, r.stock + r.etf, BenchmarkClose(inputs, day).value, today,
                  morning.turnover);
    FiguresBenchmark(inputs, r, run.daily, r.stock + r.etf, today, morning.turnover);
    MorningTurnovers(inputs, run, day, r, closed);
    opening := Shares.AtOpen(inputs, run, day).value;
    Entitlements.MorningMovesCash(inputs, run, day);
    ContributionParts(run.daily, r, today, morning.declared);
    DecidingKeepsRecords(inputs, closed, day);
    CloseKeepsHoldings(inputs, run, morning, day);
  }

  lemma CloseAppends(inputs: Inputs, run: Run, morning: Morning, day: Date) returns (r: DayRecord)
    requires CloseDay(inputs, run, morning, day).Ok?
    ensures Closes(inputs, run, morning, day, r, CloseDay(inputs, run, morning, day).value)
    ensures CloseDay(inputs, run, morning, day).value.trades == run.trades + morning.fills.trades
  {
    hide RecordAll, DayContribution, FiguresOf, BenchmarkClose;
    var daily := CloseDay(inputs, run, morning, day).value.daily;
    r := daily[|daily| - 1];
  }

  lemma DecidingKeepsRecords(inputs: Inputs, run: Run, day: Date)
    requires DecideDay(inputs, run, day).Ok?
    ensures var next := DecideDay(inputs, run, day).value;
            next.daily == run.daily && next.trades == run.trades && next.account == run.account
  {
    hide Reducer.Fold;
  }

  lemma {:induction false} RecordingKeepsHoldings(a: Account, actions: seq<Action>, day: Date)
    requires RecordAll(a, actions, day).Ok?
    ensures var b := RecordAll(a, actions, day).value;
            b.positions == a.positions && b.cash == a.cash && b.receivable == a.receivable
    decreases |actions|
  {
    hide RecordOne;
    if actions != [] {
      if actions[0].record == day {
        Entitlements.RecordOneRecords(a, actions[0]);
        RecordingKeepsHoldings(RecordOne(a, actions[0]).value, actions[1..], day);
      } else {
        RecordingKeepsHoldings(a, actions[1..], day);
      }
    }
  }

  lemma CloseKeepsHoldings(inputs: Inputs, run: Run, morning: Morning, day: Date)
    requires CloseDay(inputs, run, morning, day).Ok?
    ensures var a, b := morning.fills.account, CloseDay(inputs, run, morning, day).value.account;
            b.positions == a.positions && b.cash == a.cash && b.receivable == a.receivable
  {
    hide CloseDay, RecordAll;
    Solvency.CloseDayRecords(inputs, run, morning, day);
    var closed := CloseDay(inputs, run, morning, day).value;
    RecordingKeepsHoldings(
      Accounts.RecordValuation(morning.fills.account, day, closed.daily[|closed.daily| - 1].nav), inputs.actions, day);
  }
}
