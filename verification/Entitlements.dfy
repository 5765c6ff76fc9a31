/** What a corporate action pays, over whole runs. A right is recorded exactly on its record date, for the shares the
    ledger shows at that close, and the cash of a run is its capital, its fills and the dividends due by then. */
module Entitlements {
  import opened Base
  import opened Execution
  import opened Accounts
  import opened IntentExecutor
  import opened Engine
  import opened Books
  import opened Shares
  import Solvency

  /** So many shares at so much each. */
  function Worth(quantity: int, each: real): real {
    quantity as real * each
  }

  /** What an action gives for that many shares held and sellable at the close of its record date. */
  ghost predicate RightOf(e: Entitlement, action: Action, held: int, sellable: int) {
    && e.security == action.security
    && e.cash == Worth(held, action.cashPerShare)
    && (action.kind == SPLIT ==>
          e.stock as real == Worth(held, action.splitRatio)
          && e.splitSellable as real == Worth(sellable, action.splitRatio))
    && (action.kind != SPLIT ==> e.stock as real == Worth(held, action.stockRatio) && e.splitSellable == 0)
    && (action.kind == UNSUPPORTED ==> held == 0)
  }

  ghost predicate IsWhole(x: real) {
    exists n: int :: Worth(n, 1.0) == x
  }

  lemma WholeIsWhole(x: real)
    ensures Whole(x) <==> IsWhole(x)
  {
    if Whole(x) {
      assert Worth(x.Floor, 1.0) == x;
    }
    if IsWhole(x) {
      var n: int :| Worth(n, 1.0) == x;
      assert x.Floor == n;
    }
  }

  /** Recording a right either follows the action or refuses, and it refuses exactly when the action is of no known
      kind and shares are held, or when the held or sellable shares do not give a whole number. */
  lemma RightIsExact(a: Account, action: Action)
    ensures var held, sellable := Get(a.positions, action.security), Get(a.sellable, action.security);
            var r := EntitlementFor(a, action);
            && (r.Ok? ==> RightOf(r.value, action, held, sellable))
            && (r.Err? ==> r.code == UNSUPPORTED_ACTION)
            && (r.Err? <==> (action.kind == UNSUPPORTED && held != 0) || NotWhole(action, held, sellable))
  {
    var held, sellable := Get(a.positions, action.security), Get(a.sellable, action.security);
    TimesIsWorth(held, Ratio(action));
    TimesIsWorth(sellable, Ratio(action));
    TimesIsWorth(held, action.cashPerShare);
    hide Times, Worth, IsWhole;
    WholeIsWhole(Worth(held, Ratio(action)));
    WholeIsWhole(Worth(sellable, Ratio(action)));
  }

  ghost predicate NotWhole(action: Action, held: int, sellable: int) {
    var ratio := if action.kind == SPLIT then action.splitRatio else action.stockRatio;
    !IsWhole(Worth(held, ratio)) || !IsWhole(Worth(sellable, ratio))
  }

  lemma TimesIsWorth(quantity: int, each: real)
    ensures Times(quantity, each) == Worth(quantity, each)
  {
  }

  // ----- the days of a run up to a date

  function UpTo(days: seq<Date>, day: Date): seq<Date> {
    if days == [] || days[|days| - 1] <= day then days else UpTo(days[..|days| - 1], day)
  }

  lemma EarlierDays(days: seq<Date>, day: Date)
    requires days != [] && day < days[|days| - 1]
    ensures UpTo(days, day) == UpTo(days[..|days| - 1], day)
  {
  }

  lemma ThroughTheLastDay(days: seq<Date>, day: Date)
    requires days != [] && day == days[|days| - 1]
    ensures UpTo(days, day) == days
  {
  }

  /** The shares the ledger shows at the close of a day. */
  function HeldOn(inputs: Inputs, days: seq<Date>, day: Date, s: Id): int {
    var run := RunDays(inputs, UpTo(days, day));
    if run.Ok? then LedgerShares(run.value.account.ledger, s) else 0
  }

  /** The shares sellable at the close of a day. */
  function SellableOn(inputs: Inputs, days: seq<Date>, day: Date, s: Id): int {
    var run := RunDays(inputs, UpTo(days, day));
    if run.Ok? then Get(run.value.account.sellable, s) else 0
  }

  // ----- recording

  lemma RecordOneRecords(a: Account, action: Action)
    requires RecordOne(a, action).Ok?
    ensures var b := RecordOne(a, action).value;
            && b.positions == a.positions && b.sellable == a.sellable
            && b.cash == a.cash && b.receivable == a.receivable
            && b.entitlements == a.entitlements[action.event := EntitlementFor(a, action).value]
  {
    hide EntitlementFor, Sound;
  }

  /** `rest` is what is left to record of `actions`. */
  lemma {:induction false} RecordAllRecords(
    a: Account, actions: seq<Action>, rest: seq<Action>, day: Date, action: Action)
    requires RecordAll(a, rest, day).Ok? && EventsNameActions(actions)
    requires action in actions && forall other | other in rest :: other in actions
    ensures var b := RecordAll(a, rest, day).value;
            && b.positions == a.positions && b.sellable == a.sellable
            && b.cash == a.cash && b.receivable == a.receivable
            && (if action in rest && action.record == day then
                  action.event in b.entitlements
                  && RightOf(b.entitlements[action.event], action, Get(a.positions, action.security),
                             Get(a.sellable, action.security))
                else
                  SameRight(a.entitlements, b.entitlements, action.event))
    decreases |rest|
  {
    hide RecordOne, EntitlementFor, RightOf;
    if rest != [] {
      if rest[0].record == day {
        var next := RecordOne(a, rest[0]).value;
        RecordOneRecords(a, rest[0]);
        OneEventOneAction(actions, action, rest[0]);
        RightIsExact(a, rest[0]);
        RecordOneIsOk(a, rest[0]);
        RecordAllRecords(next, actions, rest[1..], day, action);
      } else {
        RecordAllRecords(a, actions, rest[1..], day, action);
      }
    }
  }

  lemma RecordOneIsOk(a: Account, action: Action)
    requires RecordOne(a, action).Ok?
    ensures EntitlementFor(a, action).Ok?
  {
    hide EntitlementFor;
  }

  ghost predicate SameRight(before: map<EventId, Entitlement>, after: map<EventId, Entitlement>, event: EventId) {
    (event in after <==> event in before) && (event in after ==> after[event] == before[event])
  }

  lemma OneEventOneAction(actions: seq<Action>, a: Action, b: Action)
    requires EventsNameActions(actions) && a in actions && b in actions
    ensures a.event == b.event ==> a == b
  {
  }

  lemma {:induction false} OnlyActionsAreRecorded(a: Account, rest: seq<Action>, day: Date, event: EventId)
    requires RecordAll(a, rest, day).Ok?
    ensures event in RecordAll(a, rest, day).value.entitlements ==>
              event in a.entitlements || exists action | action in rest :: action.event == event && action.record == day
    decreases |rest|
  {
    hide RecordOne, EntitlementFor;
    if rest != [] {
      if rest[0].record == day {
        RecordOneRecords(a, rest[0]);
        OnlyActionsAreRecorded(RecordOne(a, rest[0]).value, rest[1..], day, event);
        assert rest[0] in rest;
      } else {
        OnlyActionsAreRecorded(a, rest[1..], day, event);
      }
    }
  }

  // ----- the dates of an action

  datatype Moment = EX_DATE | PAY_DATE

  function DateOf(action: Action, m: Moment): Date {
    match m
    case EX_DATE => action.ex
    case PAY_DATE => action.pay
  }

  /** What the recorded rights of rows with that date today come to. */
  function Today(entitlements: map<EventId, Entitlement>, actions: seq<Action>, m: Moment, day: Date): real {
    if actions == [] then 0.0
    else
      (if DateOf(actions[0], m) == day && actions[0].event in entitlements then entitlements[actions[0].event].cash
       else 0.0)
      + Today(entitlements, actions[1..], m, day)
  }

  lemma {:induction false} ExDatesDeclare(a: Account, actions: seq<Action>, day: Date, declared: real)
    requires ExDates(a, actions, day, declared).Ok?
    ensures var (b, total) := ExDates(a, actions, day, declared).value;
            && b.entitlements == a.entitlements && b.cash == a.cash
            && total == declared + Today(a.entitlements, actions, EX_DATE, day)
            && b.receivable == a.receivable + Today(a.entitlements, actions, EX_DATE, day)
    decreases |actions|
  {
    if actions != [] {
      if ExDue(a, actions[0], day) {
        var next := ApplyExDate(a, actions[0].event, actions[0].kind == SPLIT).value;
        ExDatesDeclare(next, actions[1..], day, declared + a.entitlements[actions[0].event].cash);
      } else {
        ExDatesDeclare(a, actions[1..], day, declared);
      }
    }
  }

  lemma PayAndListOnePays(a: Account, action: Action, day: Date)
    requires PayAndListOne(a, action, day).Ok?
    ensures var b := PayAndListOne(a, action, day).value;
            var paid := if action.pay == day && action.event in a.entitlements then a.entitlements[action.event].cash
                        else 0.0;
            && b.entitlements == a.entitlements
            && b.cash == a.cash + paid && b.receivable == a.receivable - paid
  {
    hide Sound;
  }

  lemma {:induction false} PayAndListPays(a: Account, actions: seq<Action>, day: Date)
    requires PayAndList(a, actions, day).Ok?
    ensures var b := PayAndList(a, actions, day).value;
            && b.entitlements == a.entitlements
            && b.cash == a.cash + Today(a.entitlements, actions, PAY_DATE, day)
            && b.receivable == a.receivable - Today(a.entitlements, actions, PAY_DATE, day)
    decreases |actions|
  {
    hide PayAndListOne;
    if actions != [] {
      PayAndListOnePays(a, actions[0], day);
      PayAndListPays(PayAndListOne(a, actions[0], day).value, actions[1..], day);
    }
  }

  lemma {:induction false} TradesMoveCash(m: Market, a: Account, day: Date, trades: seq<(Record, Asset)>)
    requires AfterTrades(m, a, day, trades).Ok?
    ensures var b := AfterTrades(m, a, day, trades).value;
            && b.entitlements == a.entitlements
            && b.cash == a.cash + TradesCash(trades) && b.receivable == a.receivable
    decreases |trades|
  {
    hide AddPending, Sound;
    if trades != [] {
      TradesMoveCash(m, a, day, trades[..|trades| - 1]);
    }
  }

  // ----- a day

  /** How a day moves the two balances. */
  ghost predicate MovesCash(
    a: Account, b: Account, actions: seq<Action>, day: Date, trades: seq<(Record, Asset)>)
  {
    var ex, paid := Today(a.entitlements, actions, EX_DATE, day), Today(a.entitlements, actions, PAY_DATE, day);
    b.cash == a.cash + paid + TradesCash(trades) && b.receivable == a.receivable + ex - paid
  }

  lemma MorningMovesCash(inputs: Inputs, run: Run, day: Date)
    requires OpenDay(inputs, run, day).Ok?
    ensures var morning := OpenDay(inputs, run, day).value;
            && morning.fills.account.entitlements == run.account.entitlements
            && morning.declared == Today(run.account.entitlements, inputs.actions, EX_DATE, day)
            && MovesCash(run.account, morning.fills.account, inputs.actions, day, morning.fills.trades)
  {
    hide ExecuteDue, ReleaseDue, ExDates, PayAndList, Sound, Today;
    var released := Accounts.ReleaseSellable(run.account, day).value;
    ReleaseDueMoves(run.account, day, 0);
    ExDatesDeclare(released, inputs.actions, day, 0.0);
    var ex := ExDates(released, inputs.actions, day, 0.0).value.0;
    PayAndListPays(ex, inputs.actions, day);
    MorningApplies(inputs, run, day);
    var opening := AtOpen(inputs, run, day).value;
    TradesMoveCash(inputs.market, opening, day, OpenDay(inputs, run, day).value.fills.trades);
  }

  /** What the close keeps, records and reports. */
  lemma CloseRecords(inputs: Inputs, run: Run, morning: Morning, day: Date, action: Action)
    requires CloseDay(inputs, run, morning, day).Ok? && EventsNameActions(inputs.actions) && action in inputs.actions
    ensures var a, closed := morning.fills.account, CloseDay(inputs, run, morning, day).value;
            var b := closed.account;
            && b.positions == a.positions && b.sellable == a.sellable
            && (if action.record == day then
                  action.event in b.entitlements
                  && RightOf(b.entitlements[action.event], action, Get(b.positions, action.security),
                             Get(b.sellable, action.security))
                else SameRight(a.entitlements, b.entitlements, action.event))
  {
    hide CloseDay, RecordAll, RightOf;
    Solvency.CloseDayRecords(inputs, run, morning, day);
    var closed := CloseDay(inputs, run, morning, day).value;
    var valued := Accounts.RecordValuation(morning.fills.account, day, closed.daily[|closed.daily| - 1].nav);
    RecordAllRecords(valued, inputs.actions, inputs.actions, day, action);
  }

  lemma {:induction false} RecordingMovesNoCash(a: Account, actions: seq<Action>, day: Date)
    requires RecordAll(a, actions, day).Ok?
    ensures var b := RecordAll(a, actions, day).value; b.cash == a.cash && b.receivable == a.receivable
    decreases |actions|
  {
    hide RecordOne;
    if actions != [] {
      if actions[0].record == day {
        RecordOneRecords(a, actions[0]);
        RecordingMovesNoCash(RecordOne(a, actions[0]).value, actions[1..], day);
      } else {
        RecordingMovesNoCash(a, actions[1..], day);
      }
    }
  }

  lemma CloseReports(inputs: Inputs, run: Run, morning: Morning, day: Date)
    requires CloseDay(inputs, run, morning, day).Ok?
    ensures var a, closed := morning.fills.account, CloseDay(inputs, run, morning, day).value;
            && closed.account.cash == a.cash && closed.account.receivable == a.receivable
            && closed.trades == run.trades + morning.fills.trades
  {
    hide RecordAll, DayContribution, FiguresOf;
    Solvency.CloseDayRecords(inputs, run, morning, day);
    var closed := CloseDay(inputs, run, morning, day).value;
    RecordingMovesNoCash(
      Accounts.RecordValuation(morning.fills.account, day, closed.daily[|closed.daily| - 1].nav), inputs.actions, day);
  }

  lemma DecidingKeeps(inputs: Inputs, run: Run, day: Date)
    requires DecideDay(inputs, run, day).Ok?
    ensures DecideDay(inputs, run, day).value.account == run.account
    ensures DecideDay(inputs, run, day).value.trades == run.trades
  {
    hide Reducer.Fold;
  }

  // ----- rights over runs

  /** A right exists exactly when its record date was a trading day, and is what the action gives for the shares held
      and sellable at that close. */
  ghost predicate Entitled(inputs: Inputs, days: seq<Date>, entitlements: map<EventId, Entitlement>, action: Action) {
    && (action.event in entitlements <==> action.record in days)
    && (action.record in days ==>
          RightOf(entitlements[action.event], action, HeldOn(inputs, days, action.record, action.security),
                  SellableOn(inputs, days, action.record, action.security)))
  }

  lemma DayKeepsEntitled(inputs: Inputs, days: seq<Date>, action: Action)
    requires SoundInputs(inputs) && Increasing(days) && days != [] && RunDays(inputs, days).Ok?
    requires EventsNameActions(inputs.actions) && action in inputs.actions
    requires var before := days[..|days| - 1];
             Entitled(inputs, before, RunDays(inputs, before).value.account.entitlements, action)
    ensures Entitled(inputs, days, RunDays(inputs, days).value.account.entitlements, action)
  {
    hide OpenDay, CloseDay, DecideDay, RightOf, Good, DailyMatches, CursorMatches, UpTo, EventsNameActions;
    var n := |days| - 1;
    var day := days[n];
    var before := RunDays(inputs, days[..n]).value;
    var morning := OpenDay(inputs, before, day).value;
    var closed := CloseDay(inputs, before, morning, day).value;
    var after := RunDays(inputs, days).value;
    MorningMovesCash(inputs, before, day);
    CloseRecords(inputs, before, morning, day, action);
    DecidingKeeps(inputs, closed, day);
    assert forall d :: d in days <==> d in days[..n] || d == day;
    assert day !in days[..n];
    if action.record == day {
      ThroughTheLastDay(days, day);
      EveryRunIsGood(inputs, days, day);
      PositionsAreOnTheLedger(after.account, inputs.capital, day, action.security);
    } else if action.record in days {
      assert action.record < day;
      EarlierDays(days, action.record);
    }
  }

  lemma PositionsAreOnTheLedger(a: Account, capital: real, day: Date, s: Id)
    requires Good(a, capital, day)
    ensures Get(a.positions, s) == LedgerShares(a.ledger, s)
  {
  }

  /** Every right of every run. */
  lemma {:induction false} RightsAreExact(inputs: Inputs, days: seq<Date>, action: Action)
    requires SoundInputs(inputs) && Increasing(days) && RunDays(inputs, days).Ok?
    requires EventsNameActions(inputs.actions) && action in inputs.actions
    ensures Entitled(inputs, days, RunDays(inputs, days).value.account.entitlements, action)
    decreases |days|
  {
    hide Entitled, RunDay, Start;
    if days == [] {
      NothingIsEntitledYet(inputs, action);
    } else {
      RightsAreExact(inputs, days[..|days| - 1], action);
      DayKeepsEntitled(inputs, days, action);
    }
  }

  lemma NothingIsEntitledYet(inputs: Inputs, action: Action)
    requires Start(inputs).Ok?
    ensures Entitled(inputs, [], Start(inputs).value.account.entitlements, action)
  {
  }

  // ----- cash over runs

  /** The dividends of the rows whose record date and whose ex or pay date were trading days: each the shares the
      ledger shows at the close of the record date, at the action's cash per share. */
  function Dividends(inputs: Inputs, days: seq<Date>, actions: seq<Action>, m: Moment): real {
    if actions == [] then 0.0
    else
      (if actions[0].record in days && DateOf(actions[0], m) in days then
         Worth(HeldOn(inputs, days, actions[0].record, actions[0].security), actions[0].cashPerShare)
       else 0.0)
      + Dividends(inputs, days, actions[1..], m)
  }

  lemma DividendsOfOneRow(
    inputs: Inputs, days: seq<Date>, entitlements: map<EventId, Entitlement>, action: Action, m: Moment)
    requires Increasing(days) && days != [] && Entitled(inputs, days[..|days| - 1], entitlements, action)
    requires action.record < DateOf(action, m)
    ensures var n, s := |days| - 1, action.security;
            (if action.record in days && DateOf(action, m) in days then
               Worth(HeldOn(inputs, days, action.record, s), action.cashPerShare) else 0.0)
            == (if action.record in days[..n] && DateOf(action, m) in days[..n] then
                  Worth(HeldOn(inputs, days[..n], action.record, s), action.cashPerShare) else 0.0)
               + if DateOf(action, m) == days[n] && action.event in entitlements then entitlements[action.event].cash
                 else 0.0
  {
    hide UpTo, RunDays, LedgerShares, Worth;
    var n := |days| - 1;
    var day := days[n];
    assert forall d :: d in days <==> d in days[..n] || d == day;
    assert day !in days[..n];
    if action.record in days && DateOf(action, m) in days {
      assert action.record < day;
      EarlierDays(days, action.record);
    }
  }

  lemma {:induction false} DividendsGrow(
    inputs: Inputs, days: seq<Date>, entitlements: map<EventId, Entitlement>, actions: seq<Action>, m: Moment)
    requires Increasing(days) && days != []
    requires forall action | action in actions ::
               action.record < DateOf(action, m) && Entitled(inputs, days[..|days| - 1], entitlements, action)
    ensures Dividends(inputs, days, actions, m)
            == Dividends(inputs, days[..|days| - 1], actions, m)
               + Today(entitlements, actions, m, days[|days| - 1])
    decreases |actions|
  {
    hide Entitled, HeldOn, Worth;
    if actions != [] {
      assert actions[0] in actions && forall action | action in actions[1..] :: action in actions;
      DividendsOfOneRow(inputs, days, entitlements, actions[0], m);
      DividendsGrow(inputs, days, entitlements, actions[1..], m);
    }
  }

  lemma {:induction false} NoDividendsYet(inputs: Inputs, actions: seq<Action>, m: Moment)
    ensures Dividends(inputs, [], actions, m) == 0.0
  {
    if actions != [] {
      NoDividendsYet(inputs, actions[1..], m);
    }
  }

  /** The cash is the capital, what the reported trades cost and brought, and every dividend paid by then; the
      receivable is every dividend declared by then and not yet paid. */
  ghost predicate CashAddsUp(inputs: Inputs, days: seq<Date>, run: Run) {
    && run.account.cash
       == inputs.capital + TradesCash(run.trades) + Dividends(inputs, days, inputs.actions, PAY_DATE)
    && run.account.receivable
       == Dividends(inputs, days, inputs.actions, EX_DATE) - Dividends(inputs, days, inputs.actions, PAY_DATE)
  }

  lemma DayAddsUp(inputs: Inputs, days: seq<Date>)
    requires SoundInputs(inputs) && Increasing(days) && days != [] && RunDays(inputs, days).Ok?
    requires EventsNameActions(inputs.actions)
    requires forall action | action in inputs.actions :: action.record < action.ex && action.record < action.pay
    requires CashAddsUp(inputs, days[..|days| - 1], RunDays(inputs, days[..|days| - 1]).value)
    ensures CashAddsUp(inputs, days, RunDays(inputs, days).value)
  {
    hide OpenDay, CloseDay, DecideDay, Today, Dividends, Entitled, Worth, EventsNameActions, Start;
    var n := |days| - 1;
    var day := days[n];
    var before := RunDays(inputs, days[..n]).value;
    var morning := OpenDay(inputs, before, day).value;
    MorningMovesCash(inputs, before, day);
    CloseReports(inputs, before, morning, day);
    DecidingKeeps(inputs, CloseDay(inputs, before, morning, day).value, day);
    TradesCashAppends(before.trades, morning.fills.trades);
    forall action | action in inputs.actions
      ensures Entitled(inputs, days[..n], before.account.entitlements, action)
    {
      RightsAreExact(inputs, days[..n], action);
    }
    DividendsGrow(inputs, days, before.account.entitlements, inputs.actions, EX_DATE);
    DividendsGrow(inputs, days, before.account.entitlements, inputs.actions, PAY_DATE);
  }

  /** Cash and receivable of every run, from its fills and the shares held on record dates. */
  lemma {:induction false} CashComesFromFillsAndDividends(inputs: Inputs, days: seq<Date>)
    requires SoundInputs(inputs) && Increasing(days) && RunDays(inputs, days).Ok?
    requires EventsNameActions(inputs.actions)
    requires forall action | action in inputs.actions :: action.record < action.ex && action.record < action.pay
    ensures CashAddsUp(inputs, days, RunDays(inputs, days).value)
    decreases |days|
  {
    hide CashAddsUp, RunDay, Start;
    if days == [] {
      StartAddsUp(inputs);
    } else {
      CashComesFromFillsAndDividends(inputs, days[..|days| - 1]);
      DayAddsUp(inputs, days);
    }
  }

  lemma StartAddsUp(inputs: Inputs)
    requires Start(inputs).Ok?
    ensures CashAddsUp(inputs, [], Start(inputs).value)
  {
    NoDividendsYet(inputs, inputs.actions, EX_DATE);
    NoDividendsYet(inputs, inputs.actions, PAY_DATE);
  }
}
