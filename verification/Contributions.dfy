/** The daily return split: its mismatch error cannot happen, and its cash part is the day's fees. */
module Contributions {
  import opened Base
  import opened Numeric
  import opened Execution
  import opened Engine
  import opened Books

  function FeesPaid(trades: seq<(Record, Asset)>): real {
    if trades == [] then 0.0
    else FeesPaid(trades[..|trades| - 1]) + trades[|trades| - 1].0.fees.Total()
  }

  lemma {:induction false} FlowsAndFees(trades: seq<(Record, Asset)>)
    ensures TradesCash(trades)
            == Flow(trades, A_SHARE, SELL) + Flow(trades, CSI300_ETF, SELL)
             - Flow(trades, A_SHARE, BUY) - Flow(trades, CSI300_ETF, BUY) - FeesPaid(trades)
  {
    if trades != [] {
      FlowsAndFees(trades[..|trades| - 1]);
    }
  }

  lemma QuotientsAdd(x: real, y: real, z: real, whole: real, n: real)
    requires n > 0.0 && x + y + z == whole - n
    ensures x / n + y / n + z / n == whole / n - 1.0
  {
    DivideThenMultiply(x, n);
    DivideThenMultiply(y, n);
    DivideThenMultiply(z, n);
    QuotientIsUnique(x / n + y / n + z / n + 1.0, whole, n);
  }

  /** Contributions add up whenever both values are the sum of their parts. */
  lemma SplitAddsUp(
    navBegin: real, navEnd: real, stockBegin: real, stockEnd: real, etfBegin: real, etfEnd: real,
    cashBegin: real, cashEnd: real, dividends: real, trades: seq<(Record, Asset)>)
    requires navBegin > 0.0
    requires navBegin == stockBegin + etfBegin + cashBegin && navEnd == stockEnd + etfEnd + cashEnd
    requires cashEnd == cashBegin + dividends + TradesCash(trades)
    ensures var c := Contribute(navBegin, navEnd, stockBegin, stockEnd, etfBegin, etfEnd, cashBegin, cashEnd,
                                dividends, trades);
            && c.Ok?
            && c.value.stock + c.value.etf + c.value.cashCost == navEnd / navBegin - 1.0
            && c.value.cashCost * navBegin == -FeesPaid(trades)
  {
    FlowsAndFees(trades);
    var stock := stockEnd - stockBegin - Flow(trades, A_SHARE, BUY) + Flow(trades, A_SHARE, SELL) + dividends;
    var etf := etfEnd - etfBegin - Flow(trades, CSI300_ETF, BUY) + Flow(trades, CSI300_ETF, SELL);
    var cash := -FeesPaid(trades);
    QuotientsAdd(stock, etf, cash, navEnd, navBegin);
    DivideThenMultiply(cash, navBegin);
  }

  /** For these closing market values the day's split passes its check, its parts sum to the day's
      return, and its cash part times the opening value is exactly minus the fees paid. */
  ghost predicate AddsUp(
    daily: seq<DayRecord>, cash: real, dividends: real, trades: seq<(Record, Asset)>, stock: real, etf: real)
  {
    && daily != [] && daily[|daily| - 1].nav > 0.0
    && var navBegin := daily[|daily| - 1].nav;
       var navEnd := cash + stock + etf;
       var c := DayContribution(daily, navEnd, stock, etf, cash, dividends, trades);
       && c.Ok? && c.value.Some?
       && c.value.value.stock + c.value.value.etf + c.value.value.cashCost == navEnd / navBegin - 1.0
       && c.value.value.cashCost * navBegin == -FeesPaid(trades)
  }

  ghost predicate AlwaysAddsUp(daily: seq<DayRecord>, cash: real, dividends: real, trades: seq<(Record, Asset)>) {
    forall stock, etf :: AddsUp(daily, cash, dividends, trades, stock, etf)
  }

  /** Since the last record, cash moved only by declared dividends and trades. */
  ghost predicate CashMoved(daily: seq<DayRecord>, cash: real, dividends: real, trades: seq<(Record, Asset)>) {
    && daily != []
    && var last := daily[|daily| - 1];
       && last.nav == last.cash + last.receivable + last.stock + last.etf && last.nav > 0.0
       && cash == last.cash + last.receivable + dividends + TradesCash(trades)
  }

  lemma MovedCashAddsUp(daily: seq<DayRecord>, cash: real, dividends: real, trades: seq<(Record, Asset)>)
    requires CashMoved(daily, cash, dividends, trades)
    ensures AlwaysAddsUp(daily, cash, dividends, trades)
  {
    forall stock: real, etf: real
      ensures AddsUp(daily, cash, dividends, trades, stock, etf)
    {
      hide Contribute;
      var last := daily[|daily| - 1];
      SplitAddsUp(last.nav, cash + stock + etf, last.stock, stock, last.etf, etf, last.cash + last.receivable, cash,
                  dividends, trades);
    }
  }

  /** Whatever the closing market values, every day of every run splits its return without mismatch. */
  lemma ContributionNeverMismatches(inputs: Inputs, days: seq<Date>, day: Date, run: Run, morning: Morning)
    requires SoundInputs(inputs) && Increasing(days + [day]) && days != [] && RunDays(inputs, days) == Ok(run)
    requires OpenDay(inputs, run, day) == Ok(morning)
    ensures AlwaysAddsUp(run.daily, morning.fills.account.cash + morning.fills.account.receivable,
                         morning.declared, morning.fills.trades)
  {
    hide OpenDay, RunDays;
    IncreasingPrefix(days, day);
    EveryRunIsGood(inputs, days, day);
    EveryDayIsRecorded(inputs, days);
    OpenDayKeepsGood(inputs, run, day);
    MovedCashAddsUp(run.daily, morning.fills.account.cash + morning.fills.account.receivable, morning.declared,
                    morning.fills.trades);
  }

  lemma IncreasingPrefix(days: seq<Date>, day: Date)
    requires Increasing(days + [day])
    ensures Increasing(days) && (days != [] ==> days[|days| - 1] < day)
  {
    assert forall i | 0 <= i < |days| :: (days + [day])[i] == days[i];
    assert (days + [day])[|days|] == day;
  }

  lemma {:induction false} EveryDayIsRecorded(inputs: Inputs, days: seq<Date>)
    requires RunDays(inputs, days).Ok?
    ensures |RunDays(inputs, days).value.daily| == |days|
    decreases |days|
  {
    hide OpenDay, RecordAll, DayContribution;
    if days != [] {
      EveryDayIsRecorded(inputs, days[..|days| - 1]);
    }
  }
}
