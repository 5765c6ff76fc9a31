/** The figures of a whole run: the running peak, the daily drawdown beside the analyzed one, and turnover. */
module DailyFigures {
  import opened Base
  import opened Accounts
  import opened StagedDrawdown
  import opened IntentExecutor
  import opened AllocationExecutor
  import opened Engine
  import opened Books
  import MaxDrawdown
  import Rebalance

  /** The NAV series the performance analysis reads. */
  function Points(daily: seq<DayRecord>): (r: seq<MaxDrawdown.Point>)
    ensures |r| == |daily|
  {
    seq(|daily|, i requires 0 <= i < |daily| => (daily[i].date, daily[i].nav))
  }

  /** A day's peak is the highest of the capital and every close up to that day, and its drawdown is the
      fall from there. */
  ghost predicate PeakAt(capital: real, daily: seq<DayRecord>, i: nat)
    requires i < |daily|
  {
    var peak, nav := daily[i].figures.peak, daily[i].nav;
    && capital <= peak
    && (forall j | 0 <= j <= i :: daily[j].nav <= peak)
    && (peak == capital || exists j | 0 <= j <= i :: daily[j].nav == peak)
    && daily[i].figures.drawdown == MaxDrawdown.Change(peak, nav)
  }

  ghost predicate PeaksHold(capital: real, daily: seq<DayRecord>) {
    forall i | 0 <= i < |daily| :: PeakAt(capital, daily, i)
  }

  lemma CloseDayAppends(inputs: Inputs, run: Run, morning: Morning, day: Date)
    requires CloseDay(inputs, run, morning, day).Ok?
    ensures var daily := CloseDay(inputs, run, morning, day).value.daily;
            && |daily| == |run.daily| + 1 && daily[..|run.daily|] == run.daily
            && var last := daily[|run.daily|];
               && last.date == day
               && last.figures.peak == Peak(inputs.capital, run.daily, last.nav)
               && last.figures.drawdown == last.nav / last.figures.peak - 1.0
               && last.figures.twoWay == if morning.turnover.Some? then morning.turnover.value.0 else 0.0
  {
    hide DayContribution, RecordAll, BenchmarkBase, TurnoverNotional;
  }

  lemma DecideDayKeepsDaily(inputs: Inputs, run: Run, day: Date)
    ensures DecideDay(inputs, run, day).Ok? ==> DecideDay(inputs, run, day).value.daily == run.daily
  {
  }

  lemma OnePeakMore(capital: real, daily: seq<DayRecord>)
    requires daily != []
    requires var n := |daily| - 1; var last := daily[n];
             && PeaksHold(capital, daily[..n])
             && last.figures.peak == Peak(capital, daily[..n], last.nav)
             && last.figures.drawdown == last.nav / last.figures.peak - 1.0
    ensures PeaksHold(capital, daily)
  {
    var n := |daily| - 1;
    forall i | 0 <= i < n
      ensures PeakAt(capital, daily, i)
    {
      assert PeakAt(capital, daily[..n], i);
    }
    if n > 0 {
      assert PeakAt(capital, daily, n - 1);
    }
  }

  /** Every trading day is reported once, in order. */
  ghost predicate Dated(daily: seq<DayRecord>, days: seq<Date>) {
    |daily| == |days| && forall i | 0 <= i < |days| :: daily[i].date == days[i]
  }

  lemma OneDayMore(daily: seq<DayRecord>, more: seq<DayRecord>, days: seq<Date>)
    requires days != [] && Dated(daily, days[..|days| - 1])
    requires |more| == |daily| + 1 && more[..|daily|] == daily && more[|daily|].date == days[|days| - 1]
    ensures Dated(more, days)
  {
    forall i | 0 <= i < |days| - 1
      ensures more[i].date == days[i]
    {
      assert more[i] == more[..|daily|][i] && days[i] == days[..|days| - 1][i];
    }
  }

  /** In every run, with any decisions, fills and actions, the reported peak is the highest value so far. */
  lemma {:induction false} PeaksAreHighest(inputs: Inputs, days: seq<Date>)
    requires RunDays(inputs, days).Ok?
    ensures var daily := RunDays(inputs, days).value.daily;
            Dated(daily, days) && PeaksHold(inputs.capital, daily)
    decreases |days|
  {
    hide OpenDay, CloseDay, DecideDay;
    if days != [] {
      var n := |days| - 1;
      PeaksAreHighest(inputs, days[..n]);
      var before := RunDays(inputs, days[..n]).value;
      var morning := OpenDay(inputs, before, days[n]).value;
      var closed := CloseDay(inputs, before, morning, days[n]).value;
      CloseDayAppends(inputs, before, morning, days[n]);
      DecideDayKeepsDaily(inputs, closed, days[n]);
      OnePeakMore(inputs.capital, closed.daily);
      OneDayMore(before.daily, closed.daily, days);
    }
  }

  /** The deepest of the daily drawdowns. */
  ghost predicate WorstDaily(daily: seq<DayRecord>, worst: real) {
    && (forall i | 0 <= i < |daily| :: daily[i].figures.drawdown >= worst)
    && exists i | 0 <= i < |daily| :: daily[i].figures.drawdown == worst
  }

  /** No close so far is above the capital. */
  ghost predicate NotYetAbove(capital: real, daily: seq<DayRecord>, i: nat)
    requires i < |daily|
  {
    forall j | 0 <= j <= i :: daily[j].nav <= capital
  }

  /** Until a close is above the capital, none is further below it than the given fall. */
  ghost predicate EarlyFallsWithin(capital: real, daily: seq<DayRecord>, worst: real)
    requires capital > 0.0
  {
    forall i | 0 <= i < |daily| && NotYetAbove(capital, daily, i) :: MaxDrawdown.Change(capital, daily[i].nav) >= worst
  }

  /** For every run, the maximum drawdown the analysis finds, the worst fall between two closes, is never
      deeper than the worst daily figure. The two are equal if and only if no close before the first one above
      the capital is further below the capital than that; and they are equal in every run in which an account
      without positions is worth its cash. */
  lemma DailyAndAnalyzedDrawdownsAgree(inputs: Inputs, days: seq<Date>) returns (daily: seq<DayRecord>)
    requires Increasing(days) && days != [] && RunDays(inputs, days).Ok?
    ensures daily == RunDays(inputs, days).value.daily && |daily| == |days| && MaxDrawdown.ValidNav(Points(daily))
    ensures inputs.capital > 0.0
    ensures forall worst: real, high: nat, low: nat |
              MaxDrawdown.Bounds(Points(daily), |daily|, worst)
                && MaxDrawdown.Attains(Points(daily), worst, high, low) ::
              && daily[low].figures.drawdown <= worst
              && (WorstDaily(daily, worst) <==> EarlyFallsWithin(inputs.capital, daily, worst))
              && (inputs.marketValue(days[0], map[]) == Ok((0.0, 0.0)) ==> WorstDaily(daily, worst))
  {
    hide RunDays, PeaksHold, MaxDrawdown.Bounds, WorstDaily, EarlyFallsWithin;
    PeaksAreHighest(inputs, days);
    CapitalIsPositive(inputs, days);
    daily := RunDays(inputs, days).value.daily;
    forall worst: real, high: nat, low: nat |
      MaxDrawdown.Bounds(Points(daily), |daily|, worst) && MaxDrawdown.Attains(Points(daily), worst, high, low)
      ensures daily[low].figures.drawdown <= worst
      ensures WorstDaily(daily, worst) <==> EarlyFallsWithin(inputs.capital, daily, worst)
      ensures inputs.marketValue(days[0], map[]) == Ok((0.0, 0.0)) ==> WorstDaily(daily, worst)
    {
      DrawdownsAgree(inputs.capital, daily, worst, high, low);
      if inputs.marketValue(days[0], map[]) == Ok((0.0, 0.0)) {
        FirstCloseIsTheCapital(inputs, days);
        EarlyFallsCount(inputs.capital, daily, worst);
      }
    }
  }

  lemma DrawdownsAgree(capital: real, daily: seq<DayRecord>, worst: real, high: nat, low: nat)
    requires capital > 0.0
    requires PeaksHold(capital, daily) && MaxDrawdown.ValidNav(Points(daily)) && daily != []
    requires MaxDrawdown.Bounds(Points(daily), |daily|, worst) && MaxDrawdown.Attains(Points(daily), worst, high, low)
    ensures daily[low].figures.drawdown <= worst
    ensures WorstDaily(daily, worst) <==> EarlyFallsWithin(capital, daily, worst)
  {
    hide MaxDrawdown.Change;
    var points := Points(daily);
    assert PeakAt(capital, daily, low);
    MaxDrawdown.HigherPeakFallsFurther(daily[high].nav, daily[low].figures.peak, daily[low].nav);
    if WorstDaily(daily, worst) {
      forall i | 0 <= i < |daily| && NotYetAbove(capital, daily, i)
        ensures MaxDrawdown.Change(capital, daily[i].nav) >= worst
      {
        assert PeakAt(capital, daily, i);
      }
    }
    if EarlyFallsWithin(capital, daily, worst) {
      forall i | 0 <= i < |daily|
        ensures daily[i].figures.drawdown >= worst
      {
        LateFallsAreAnalyzed(capital, daily, worst, i);
      }
    }
  }

  /** A day whose peak is a close falls from an earlier close. */
  lemma LateFallsAreAnalyzed(capital: real, daily: seq<DayRecord>, worst: real, i: nat)
    requires capital > 0.0 && i < |daily| && PeaksHold(capital, daily) && MaxDrawdown.ValidNav(Points(daily))
    requires MaxDrawdown.Bounds(Points(daily), |daily|, worst) && EarlyFallsWithin(capital, daily, worst)
    ensures daily[i].figures.drawdown >= worst
  {
    hide MaxDrawdown.Change;
    assert PeakAt(capital, daily, i);
    if daily[i].figures.peak == capital {
      assert NotYetAbove(capital, daily, i);
    } else {
      var top :| 0 <= top <= i && daily[top].nav == daily[i].figures.peak;
      assert MaxDrawdown.Change(Points(daily)[top].1, Points(daily)[i].1) >= worst;
    }
  }

  /** When the first close is the capital, a fall from the capital is a fall from a close. */
  lemma EarlyFallsCount(capital: real, daily: seq<DayRecord>, worst: real)
    requires capital > 0.0 && daily != [] && daily[0].nav == capital && MaxDrawdown.ValidNav(Points(daily))
    requires MaxDrawdown.Bounds(Points(daily), |daily|, worst)
    ensures EarlyFallsWithin(capital, daily, worst)
  {
    hide MaxDrawdown.Change;
    forall i | 0 <= i < |daily|
      ensures MaxDrawdown.Change(capital, daily[i].nav) >= worst
    {
      assert MaxDrawdown.Change(Points(daily)[0].1, Points(daily)[i].1) >= worst;
    }
  }

  lemma {:induction false} CapitalIsPositive(inputs: Inputs, days: seq<Date>)
    requires RunDays(inputs, days).Ok?
    ensures inputs.capital > 0.0 && Start(inputs).Ok?
    decreases |days|
  {
    hide RunDay;
    if days != [] {
      CapitalIsPositive(inputs, days[..|days| - 1]);
    }
  }

  // ----- the first day

  lemma {:induction false} NoExDates(a: Account, actions: seq<Action>, day: Date, declared: real)
    requires a.entitlements == map[]
    ensures ExDates(a, actions, day, declared) == Ok((a, declared))
    decreases |actions|
  {
    if actions != [] {
      NoExDates(a, actions[1..], day, declared);
    }
  }

  lemma {:induction false} NothingToPayOrList(a: Account, actions: seq<Action>, day: Date)
    requires a.entitlements == map[]
    ensures PayAndList(a, actions, day) == Ok(a)
    decreases |actions|
  {
    if actions != [] {
      NothingToPayOrList(a, actions[1..], day);
    }
  }

  lemma FirstOpeningIsEmpty(inputs: Inputs, day: Date)
    requires Start(inputs).Ok?
    ensures OpenDay(inputs, Start(inputs).value, day)
            == Ok(Morning(Fills(Start(inputs).value.account, [], []), 0.0, None))
  {
    var a := Start(inputs).value.account;
    assert ReleaseDue(a, day) == a;
    NoExDates(a, inputs.actions, day, 0.0);
    NothingToPayOrList(a, inputs.actions, day);
  }

  lemma CloseDayValues(inputs: Inputs, run: Run, morning: Morning, day: Date)
    requires CloseDay(inputs, run, morning, day).Ok?
    ensures var a := morning.fills.account;
            var values := inputs.marketValue(day, a.positions);
            var daily := CloseDay(inputs, run, morning, day).value.daily;
            && values.Ok? && |daily| == |run.daily| + 1
            && daily[|run.daily|].nav == a.cash + a.receivable + values.value.0 + values.value.1
  {
    hide DayContribution, RecordAll, FiguresOf;
  }

  /** No order is due on the first day, so it closes at the capital. */
  lemma {:induction false} FirstCloseIsTheCapital(inputs: Inputs, days: seq<Date>)
    requires days != [] && RunDays(inputs, days).Ok? && inputs.marketValue(days[0], map[]) == Ok((0.0, 0.0))
    ensures RunDays(inputs, days).value.daily != [] && RunDays(inputs, days).value.daily[0].nav == inputs.capital
    decreases |days|
  {
    hide OpenDay, CloseDay, DecideDay;
    var n := |days| - 1;
    var before := RunDays(inputs, days[..n]).value;
    var morning := OpenDay(inputs, before, days[n]).value;
    var closed := CloseDay(inputs, before, morning, days[n]).value;
    CloseDayAppends(inputs, before, morning, days[n]);
    DecideDayKeepsDaily(inputs, closed, days[n]);
    if n == 0 {
      FirstOpeningIsEmpty(inputs, days[0]);
      CloseDayValues(inputs, before, morning, days[0]);
    } else {
      FirstCloseIsTheCapital(inputs, days[..n]);
      assert closed.daily[0] == closed.daily[..|before.daily|][0];
    }
  }

  // ----- turnover

  ghost predicate Fractions(daily: seq<DayRecord>) {
    forall i | 0 <= i < |daily| :: 0.0 <= daily[i].figures.twoWay <= 1.0
  }

  lemma DueTurnover(m: Market, a: Account, capital: real, day: Date, due: Due)
    requires ExecuteDue(m, a, capital, day, due).Ok?
    ensures var executed := ExecuteDue(m, a, capital, day, due).value;
            Turnover(m, day, a, executed.fills.account) == Ok((executed.turnover, executed.base))
  {
    hide Turnover, ExecuteDecision, ExecuteAllocation;
    match due {
      case TradeIntents(intents) => DecisionTurnover(m, a, capital, day, intents);
      case TargetWeights(targets) => AllocationTurnover(m, a, day, targets);
    }
  }

  lemma DecisionTurnover(m: Market, a: Account, capital: real, day: Date, intents: seq<Intent>)
    requires ExecuteDecision(m, a, capital, day, intents).Ok?
    ensures var executed := ExecuteDecision(m, a, capital, day, intents).value;
            Turnover(m, day, a, executed.fills.account) == Ok((executed.turnover, executed.base))
  {
    hide Turnover, RunIntents, Ordered;
  }

  lemma AllocationTurnover(m: Market, a: Account, day: Date, targets: seq<Rebalance.Target>)
    requires ExecuteAllocation(m, a, day, targets).Ok?
    ensures var executed := ExecuteAllocation(m, a, day, targets).value;
            Turnover(m, day, a, executed.fills.account) == Ok((executed.turnover, executed.base))
  {
    hide Turnover, RunOrders, PlanFor, PlanningMarket;
  }

  lemma MorningTurnoverIsAFraction(inputs: Inputs, run: Run, day: Date)
    requires SoundInputs(inputs) && GoodRun(inputs, run, day) && OpenDay(inputs, run, day).Ok?
    ensures var turnover := OpenDay(inputs, run, day).value.turnover;
            turnover.Some? ==> 0.0 <= turnover.value.0 <= 1.0
  {
    hide ExDates, PayAndList, ExecuteDue, Turnover, Follows, CashBalances, SharesBalance;
    OpenDayKeepsGood(inputs, run, day);
    var a, capital := run.account, inputs.capital;
    var released := Accounts.ReleaseSellable(a, day).value;
    ReleaseDueIsQuiet(a, day);
    QuietKeepsGood(a, released, capital, day);
    var (ex, declared) := ExDates(released, inputs.actions, day, 0.0).value;
    ExDatesKeepGood(released, inputs.actions, day, 0.0, capital);
    var listed := PayAndList(ex, inputs.actions, day).value;
    PayAndListIsQuiet(ex, inputs.actions, day);
    if day in run.pending {
      var executed := ExecuteDue(inputs.market, listed, run.strategy.capital, day, run.pending[day]).value;
      DueTurnover(inputs.market, listed, run.strategy.capital, day, run.pending[day]);
      TurnoverIsAFraction(inputs.market, day, listed, executed.fills.account);
    }
  }

  /** In every run, every day's two-way turnover is a fraction of the portfolio. */
  lemma {:induction false} TurnoversAreFractions(inputs: Inputs, days: seq<Date>)
    requires SoundInputs(inputs) && Increasing(days) && RunDays(inputs, days).Ok?
    ensures Fractions(RunDays(inputs, days).value.daily)
    decreases |days|
  {
    hide OpenDay, CloseDay, DecideDay, GoodRun;
    if days != [] {
      var n := |days| - 1;
      TurnoversAreFractions(inputs, days[..n]);
      EveryRunIsGood(inputs, days[..n], days[n]);
      var before := RunDays(inputs, days[..n]).value;
      var morning := OpenDay(inputs, before, days[n]).value;
      var closed := CloseDay(inputs, before, morning, days[n]).value;
      MorningTurnoverIsAFraction(inputs, before, days[n]);
      CloseDayAppends(inputs, before, morning, days[n]);
      DecideDayKeepsDaily(inputs, closed, days[n]);
      OneFractionMore(before.daily, closed.daily);
    }
  }

  lemma OneFractionMore(daily: seq<DayRecord>, more: seq<DayRecord>)
    requires Fractions(daily) && |more| == |daily| + 1 && more[..|daily|] == daily
    requires 0.0 <= more[|daily|].figures.twoWay <= 1.0
    ensures Fractions(more)
  {
    forall i | 0 <= i < |daily|
      ensures 0.0 <= more[i].figures.twoWay <= 1.0
    {
      assert more[i] == more[..|daily|][i] == daily[i];
    }
  }
}
