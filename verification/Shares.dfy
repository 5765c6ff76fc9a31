/** Where every share of every position is: sellable now, waiting in a release bucket, or created by
    a corporate action and not yet (or, for a split, never) delivered as sellable. */
module Shares {
  import opened Base
  import opened Execution
  import opened Accounts
  import opened IntentExecutor
  import opened Engine
  import opened Books

  /** Shares of one action that are in the position but not sellable: from its ex date until its
      listing date, and forever for the part of a split that was not sellable on the record date. */
  function UndeliveredBy(
    entitlements: map<EventId, Entitlement>, action: Action, s: Id, exDay: Date, listDay: Date): int
  {
    if action.event in entitlements && entitlements[action.event].security == s && action.ex <= exDay then
      var e := entitlements[action.event];
      if action.kind == SPLIT then e.stock - e.splitSellable
      else if action.list > listDay then e.stock
      else 0
    else 0
  }

  function Undelivered(
    entitlements: map<EventId, Entitlement>, actions: seq<Action>, s: Id, exDay: Date, listDay: Date): int
  {
    if actions == [] then 0
    else
      UndeliveredBy(entitlements, actions[0], s, exDay, listDay)
      + Undelivered(entitlements, actions[1..], s, exDay, listDay)
  }

  /** Rows of one event are the same row; record date < ex date <= listing date; and no ex or
      listing date falls between two consecutive trading days of the run. */
  ghost predicate WellTimed(actions: seq<Action>, days: seq<Date>) {
    && EventsNameActions(actions)
    && (forall i | 0 <= i < |actions| :: actions[i].record < actions[i].ex <= actions[i].list)
    && (forall i, n | 0 <= i < |actions| && 0 < n < |days| ::
          !(days[n - 1] < actions[i].ex < days[n]) && !(days[n - 1] < actions[i].list < days[n]))
  }

  ghost predicate EventsNameActions(actions: seq<Action>) {
    forall i, j | 0 <= i < |actions| && 0 <= j < |actions| && actions[i].event == actions[j].event ::
      actions[i] == actions[j]
  }

  /** Only splits entitle to shares that are sellable at once. */
  ghost predicate OnlySplitsSellAtOnce(entitlements: map<EventId, Entitlement>, actions: seq<Action>) {
    forall i | 0 <= i < |actions| && actions[i].event in entitlements && actions[i].kind != SPLIT ::
      entitlements[actions[i].event].splitSellable == 0
  }

  function Rest(a: Account, s: Id): int {
    Get(a.positions, s) - Get(a.sellable, s) - PendingOf(a.pending, s)
  }

  ghost predicate Decomposed(a: Account, actions: seq<Action>, exDay: Date, listDay: Date) {
    forall s :: Rest(a, s) == Undelivered(a.entitlements, actions, s, exDay, listDay)
  }

  // ----- one transition at a time

  lemma ReleaseKeepsRest(a: Account, day: Date)
    ensures var b := ReleaseDue(a, day);
            && b.entitlements == a.entitlements && AllAfter(b.pending, day)
            && forall s :: Rest(b, s) == Rest(a, s)
  {
    var b := ReleaseDue(a, day);
    ReleaseDueMoves(a, day, 0);
    forall s
      ensures Rest(b, s) == Rest(a, s)
    {
      ReleaseDueMoves(a, day, s);
    }
  }

  lemma TradeKeepsRest(a: Account, r: Record, release: Option<Date>)
    requires Accounts.ApplyTrade(a, r, release).Ok?
    ensures var b := Accounts.ApplyTrade(a, r, release).value;
            b.entitlements == a.entitlements && forall s :: Rest(b, s) == Rest(a, s)
  {
    var b := Accounts.ApplyTrade(a, r, release).value;
    forall s
      ensures Rest(b, s) == Rest(a, s)
    {
      if r.side == BUY {
        AddPendingAdds(a.pending, release.value, r.security, r.filled, s);
      }
    }
  }

  lemma {:induction false} TradesKeepRest(m: Market, a: Account, day: Date, trades: seq<(Record, Asset)>)
    requires AfterTrades(m, a, day, trades).Ok?
    ensures var b := AfterTrades(m, a, day, trades).value;
            b.entitlements == a.entitlements && forall s :: Rest(b, s) == Rest(a, s)
    decreases |trades|
  {
    hide Rest;
    if trades != [] {
      var n := |trades| - 1;
      TradesKeepRest(m, a, day, trades[..n]);
      var before := AfterTrades(m, a, day, trades[..n]).value;
      TradeKeepsRest(before, trades[n].0, ReleaseDate(m, day, trades[n].0.side));
    }
  }

  /** Two consecutive days see the same undelivered shares: no date falls in between. */
  lemma {:induction false} NothingHappensBetween(
    entitlements: map<EventId, Entitlement>, actions: seq<Action>, s: Id, before: Date, day: Date)
    requires before < day
    requires forall i | 0 <= i < |actions| ::
               !(before < actions[i].ex < day) && !(before < actions[i].list < day)
    ensures Undelivered(entitlements, actions, s, before, before)
            == Undelivered(entitlements, actions, s, day - 1, day - 1)
  {
    if actions != [] {
      assert forall i | 0 <= i < |actions[1..]| :: actions[1..][i] == actions[i + 1];
      NothingHappensBetween(entitlements, actions[1..], s, before, day);
    }
  }

  lemma ExDateDelivers(a: Account, action: Action, day: Date, s: Id)
    requires ExDue(a, action, day) && ApplyExDate(a, action.event, action.kind == SPLIT).Ok?
    requires action.ex <= action.list
    requires action.kind != SPLIT ==> a.entitlements[action.event].splitSellable == 0
    ensures var b := ApplyExDate(a, action.event, action.kind == SPLIT).value;
            && b.entitlements == a.entitlements
            && Rest(b, s) == Rest(a, s) + UndeliveredBy(a.entitlements, action, s, day, day - 1)
                                        - UndeliveredBy(a.entitlements, action, s, day - 1, day - 1)
  {
  }

  lemma {:induction false} ExDatesDeliver(a: Account, actions: seq<Action>, day: Date, declared: real, s: Id)
    requires ExDates(a, actions, day, declared).Ok?
    requires forall i | 0 <= i < |actions| :: actions[i].ex <= actions[i].list
    requires OnlySplitsSellAtOnce(a.entitlements, actions)
    ensures var b := ExDates(a, actions, day, declared).value.0;
            && b.entitlements == a.entitlements
            && Rest(b, s) == Rest(a, s) + Undelivered(a.entitlements, actions, s, day, day - 1)
                                        - Undelivered(a.entitlements, actions, s, day - 1, day - 1)
    decreases |actions|
  {
    if actions != [] {
      assert forall i | 0 <= i < |actions[1..]| :: actions[1..][i] == actions[i + 1];
      if ExDue(a, actions[0], day) {
        ExDateDelivers(a, actions[0], day, s);
        var next := ApplyExDate(a, actions[0].event, actions[0].kind == SPLIT).value;
        ExDatesDeliver(next, actions[1..], day, declared + a.entitlements[actions[0].event].cash, s);
      } else {
        ExDatesDeliver(a, actions[1..], day, declared, s);
      }
    }
  }

  lemma {:induction false} PayAndListDeliver(a: Account, actions: seq<Action>, day: Date, s: Id)
    requires PayAndList(a, actions, day).Ok?
    requires forall i | 0 <= i < |actions| :: actions[i].ex <= actions[i].list
    ensures var b := PayAndList(a, actions, day).value;
            && b.entitlements == a.entitlements && b.pending == a.pending
            && Rest(b, s) == Rest(a, s) + Undelivered(a.entitlements, actions, s, day, day)
                                        - Undelivered(a.entitlements, actions, s, day, day - 1)
    decreases |actions|
  {
    if actions != [] {
      assert forall i | 0 <= i < |actions[1..]| :: actions[1..][i] == actions[i + 1];
      PayAndListOneDelivers(a, actions[0], day, s);
      hide PayAndListOne, UndeliveredBy, Rest;
      PayAndListDeliver(PayAndListOne(a, actions[0], day).value, actions[1..], day, s);
    }
  }

  lemma PayAndListOneDelivers(a: Account, action: Action, day: Date, s: Id)
    requires PayAndListOne(a, action, day).Ok? && action.ex <= action.list
    ensures var b := PayAndListOne(a, action, day).value;
            && b.entitlements == a.entitlements && b.pending == a.pending
            && Rest(b, s) == Rest(a, s) + UndeliveredBy(a.entitlements, action, s, day, day)
                                        - UndeliveredBy(a.entitlements, action, s, day, day - 1)
  {
  }

  lemma {:induction false} NewRightsAreNotYetShares(
    entitlements: map<EventId, Entitlement>, actions: seq<Action>, event: EventId, e: Entitlement, s: Id, day: Date)
    requires forall i | 0 <= i < |actions| && actions[i].event == event :: actions[i].ex > day
    ensures Undelivered(entitlements[event := e], actions, s, day, day)
            == Undelivered(entitlements, actions, s, day, day)
  {
    if actions != [] {
      assert forall i | 0 <= i < |actions[1..]| :: actions[1..][i] == actions[i + 1];
      NewRightsAreNotYetShares(entitlements, actions[1..], event, e, s, day);
    }
  }

  /** `rest` is what is left to record of `actions`. */
  lemma {:induction false} RecordAllKeepsDecomposed(a: Account, actions: seq<Action>, rest: seq<Action>, day: Date)
    requires RecordAll(a, rest, day).Ok?
    requires EventsNameActions(actions) && forall i | 0 <= i < |actions| :: actions[i].record < actions[i].ex
    requires forall action | action in rest :: action in actions
    requires Decomposed(a, actions, day, day) && OnlySplitsSellAtOnce(a.entitlements, actions)
    ensures var b := RecordAll(a, rest, day).value;
            Decomposed(b, actions, day, day) && OnlySplitsSellAtOnce(b.entitlements, actions) && b.pending == a.pending
    decreases |rest|
  {
    if rest != [] {
      if rest[0].record == day {
        RecordOneKeepsDecomposed(a, actions, rest[0], day);
        RecordAllKeepsDecomposed(RecordOne(a, rest[0]).value, actions, rest[1..], day);
      } else {
        RecordAllKeepsDecomposed(a, actions, rest[1..], day);
      }
    }
  }

  lemma RecordOneKeepsDecomposed(a: Account, actions: seq<Action>, action: Action, day: Date)
    requires RecordOne(a, action).Ok? && action in actions && action.record == day
    requires EventsNameActions(actions) && forall i | 0 <= i < |actions| :: actions[i].record < actions[i].ex
    requires Decomposed(a, actions, day, day) && OnlySplitsSellAtOnce(a.entitlements, actions)
    ensures var b := RecordOne(a, action).value;
            Decomposed(b, actions, day, day) && OnlySplitsSellAtOnce(b.entitlements, actions) && b.pending == a.pending
  {
    var b := RecordOne(a, action).value;
    var e := b.entitlements[action.event];
    forall s
      ensures Rest(b, s) == Undelivered(b.entitlements, actions, s, day, day)
    {
      NewRightsAreNotYetShares(a.entitlements, actions, action.event, e, s, day);
      assert Rest(b, s) == Rest(a, s);
    }
  }

  // ----- whole days and whole runs

  ghost predicate ForwardCalendar(m: Market) {
    forall day :: m.nextDay(day).Some? ==> m.nextDay(day).value > day
  }

  ghost predicate Placed(run: Run, actions: seq<Action>, day: Date) {
    Decomposed(run.account, actions, day, day) && OnlySplitsSellAtOnce(run.account.entitlements, actions)
  }

  /** The account as trading opens: releases, ex dates and listings of the day applied. */
  function AtOpen(inputs: Inputs, run: Run, day: Date): Result<Account> {
    var released :- Accounts.ReleaseSellable(run.account, day);
    var ex :- ExDates(released, inputs.actions, day, 0.0);
    PayAndList(ex.0, inputs.actions, day)
  }

  lemma AtOpenIsDecomposed(inputs: Inputs, run: Run, before: Date, day: Date)
    requires Placed(run, inputs.actions, before) && before < day && AtOpen(inputs, run, day).Ok?
    requires forall i | 0 <= i < |inputs.actions| ::
               && inputs.actions[i].ex <= inputs.actions[i].list
               && !(before < inputs.actions[i].ex < day) && !(before < inputs.actions[i].list < day)
    ensures var b := AtOpen(inputs, run, day).value;
            && b.entitlements == run.account.entitlements && AllAfter(b.pending, day)
            && Decomposed(b, inputs.actions, day, day)
  {
    var released := Accounts.ReleaseSellable(run.account, day).value;
    ReleaseKeepsRest(run.account, day);
    var ex := ExDates(released, inputs.actions, day, 0.0).value.0;
    var b := PayAndList(ex, inputs.actions, day).value;
    ExDatesKeepPending(released, inputs.actions, day, 0.0);
    ExDatesDeliver(released, inputs.actions, day, 0.0, 0);
    PayAndListDeliver(ex, inputs.actions, day, 0);
    forall s
      ensures Rest(b, s) == Undelivered(b.entitlements, inputs.actions, s, day, day)
    {
      NothingHappensBetween(run.account.entitlements, inputs.actions, s, before, day);
      ExDatesDeliver(released, inputs.actions, day, 0.0, s);
      PayAndListDeliver(ex, inputs.actions, day, s);
    }
  }

  lemma {:induction false} ExDatesKeepPending(a: Account, actions: seq<Action>, day: Date, declared: real)
    requires ExDates(a, actions, day, declared).Ok?
    ensures ExDates(a, actions, day, declared).value.0.pending == a.pending
    decreases |actions|
  {
    if actions != [] {
      if ExDue(a, actions[0], day) {
        ExDatesKeepPending(ApplyExDate(a, actions[0].event, actions[0].kind == SPLIT).value, actions[1..], day,
                           declared + a.entitlements[actions[0].event].cash);
      } else {
        ExDatesKeepPending(a, actions[1..], day, declared);
      }
    }
  }

  lemma MorningApplies(inputs: Inputs, run: Run, day: Date)
    requires AtOpen(inputs, run, day).Ok? && OpenDay(inputs, run, day).Ok?
    ensures var fills := OpenDay(inputs, run, day).value.fills;
            AfterTrades(inputs.market, AtOpen(inputs, run, day).value, day, fills.trades) == Ok(fills.account)
  {
    hide ExecuteDue;
    var opening := AtOpen(inputs, run, day).value;
    if day in run.pending {
      DueApplies(inputs.market, opening, run.strategy.capital, day, run.pending[day]);
    }
  }

  /** From the open to the close, an account only trades. */
  lemma MorningTrades(inputs: Inputs, run: Run, day: Date)
    requires AtOpen(inputs, run, day).Ok? && OpenDay(inputs, run, day).Ok?
    requires Sound(AtOpen(inputs, run, day).value) && inputs.market.participation >= 0.0
    ensures var fills := OpenDay(inputs, run, day).value.fills;
            Trades(inputs.market, AtOpen(inputs, run, day).value, day, fills.trades, fills.account)
  {
    hide Trades, ExecuteDue;
    var opening := AtOpen(inputs, run, day).value;
    if day in run.pending {
      DueTrades(inputs.market, opening, run.strategy.capital, day, run.pending[day]);
    } else {
      NoTrades(inputs.market, opening, day);
    }
  }

  lemma RunDayKeepsPlaced(inputs: Inputs, run: Run, before: Date, day: Date)
    requires Placed(run, inputs.actions, before) && before < day && RunDay(inputs, run, day).Ok?
    requires EventsNameActions(inputs.actions)
    requires forall i | 0 <= i < |inputs.actions| ::
               && inputs.actions[i].record < inputs.actions[i].ex <= inputs.actions[i].list
               && !(before < inputs.actions[i].ex < day) && !(before < inputs.actions[i].list < day)
    ensures Placed(RunDay(inputs, run, day).value, inputs.actions, day)
  {
    hide ExecuteDue, AfterTrades;
    AtOpenIsDecomposed(inputs, run, before, day);
    var opening := AtOpen(inputs, run, day).value;
    var morning := OpenDay(inputs, run, day).value;
    var a := morning.fills.account;
    MorningApplies(inputs, run, day);
    TradesKeepRest(inputs.market, opening, day, morning.fills.trades);
    assert Decomposed(a, inputs.actions, day, day);
    var closed := CloseDay(inputs, run, morning, day).value;
    var valued := Accounts.RecordValuation(a, day, closed.daily[|closed.daily| - 1].nav);
    assert Decomposed(valued, inputs.actions, day, day) by {
      assert forall s :: Rest(valued, s) == Rest(a, s);
    }
    RecordAllKeepsDecomposed(valued, inputs.actions, inputs.actions, day);
  }

  lemma {:induction false} NothingEntitled(actions: seq<Action>, s: Id, exDay: Date, listDay: Date)
    ensures Undelivered(map[], actions, s, exDay, listDay) == 0
  {
    if actions != [] {
      NothingEntitled(actions[1..], s, exDay, listDay);
    }
  }

  lemma NothingIsPlacedYet(inputs: Inputs, day: Date)
    requires Start(inputs).Ok?
    ensures Placed(Start(inputs).value, inputs.actions, day)
  {
    var run := Start(inputs).value;
    forall s
      ensures Rest(run.account, s) == Undelivered(run.account.entitlements, inputs.actions, s, day, day)
    {
      NothingEntitled(inputs.actions, s, day, day);
    }
  }

  /** Every share is accounted for. After any days of any run, each position is its sellable shares,
      plus all pending buckets, plus shares from corporate actions that are ex but not delivered. */
  lemma {:induction false} EveryShareIsPlaced(inputs: Inputs, days: seq<Date>)
    requires Increasing(days) && WellTimed(inputs.actions, days) && RunDays(inputs, days).Ok? && days != []
    ensures Placed(RunDays(inputs, days).value, inputs.actions, days[|days| - 1])
    decreases |days|
  {
    hide Placed, RunDay, Start;
    var n := |days| - 1;
    var before := RunDays(inputs, days[..n]).value;
    if n == 0 {
      NothingIsPlacedYet(inputs, days[0] - 1);
      RunDayKeepsPlaced(inputs, before, days[0] - 1, days[0]);
    } else {
      EveryShareIsPlaced(inputs, days[..n]);
      RunDayKeepsPlaced(inputs, before, days[n - 1], days[n]);
    }
  }

  lemma {:induction false} WithoutSplitsUndeliveredIsUnlisted(
    entitlements: map<EventId, Entitlement>, actions: seq<Action>, s: Id, day: Date)
    requires forall i | 0 <= i < |actions| :: actions[i].kind != SPLIT && actions[i].list <= day
    ensures Undelivered(entitlements, actions, s, day, day) == 0
  {
    if actions != [] {
      assert forall i | 0 <= i < |actions[1..]| :: actions[1..][i] == actions[i + 1];
      WithoutSplitsUndeliveredIsUnlisted(entitlements, actions[1..], s, day);
    }
  }

  /** Without splits, once every distribution is listed nothing is stranded: a position is exactly
      its sellable shares and its pending buckets. */
  lemma AllListedMeansAllDelivered(inputs: Inputs, days: seq<Date>, s: Id)
    requires Increasing(days) && WellTimed(inputs.actions, days) && RunDays(inputs, days).Ok? && days != []
    requires forall i | 0 <= i < |inputs.actions| ::
               inputs.actions[i].kind != SPLIT && inputs.actions[i].list <= days[|days| - 1]
    ensures var a := RunDays(inputs, days).value.account;
            Get(a.positions, s) == Get(a.sellable, s) + PendingOf(a.pending, s)
  {
    EveryShareIsPlaced(inputs, days);
    var a := RunDays(inputs, days).value.account;
    WithoutSplitsUndeliveredIsUnlisted(a.entitlements, inputs.actions, s, days[|days| - 1]);
    assert Rest(a, s) == 0;
  }

  // ----- T+1

  function Traded(trades: seq<(Record, Asset)>, side: Side, s: Id): int {
    if trades == [] then 0
    else
      var r := trades[|trades| - 1].0;
      Traded(trades[..|trades| - 1], side, s) + if r.side == side && r.security == s then r.filled else 0
  }

  /** From `a` to `b`, `sold` shares left the sellable ones and `bought` went into later buckets. */
  ghost predicate TPlusOne(a: Account, b: Account, day: Date, s: Id, bought: int, sold: int) {
    && AllAfter(b.pending, day)
    && Get(b.sellable, s) == Get(a.sellable, s) - sold
    && PendingOf(b.pending, s) == PendingOf(a.pending, s) + bought
  }

  lemma TradeIsTPlusOne(m: Market, a: Account, day: Date, r: Record, s: Id)
    requires ForwardCalendar(m) && AllAfter(a.pending, day)
    requires Accounts.ApplyTrade(a, r, ReleaseDate(m, day, r.side)).Ok?
    ensures var b := Accounts.ApplyTrade(a, r, ReleaseDate(m, day, r.side)).value;
            && TPlusOne(a, b, day, s, if r.side == BUY && r.security == s then r.filled else 0,
                        if r.side == SELL && r.security == s then r.filled else 0)
            && a.positions.Keys + {r.security} == b.positions.Keys
            && Sound(b)
  {
    if r.side == BUY {
      var release := ReleaseDate(m, day, BUY).value;
      AddPendingAdds(a.pending, release, r.security, r.filled, s);
      AddPendingKeepsAfter(a.pending, release, r.security, r.filled, day);
    }
  }

  lemma {:induction false} TradesAreTPlusOne(
    m: Market, a: Account, day: Date, trades: seq<(Record, Asset)>, b: Account, s: Id)
    requires ForwardCalendar(m) && Sound(a) && AllAfter(a.pending, day) && Trades(m, a, day, trades, b)
    ensures TPlusOne(a, b, day, s, Traded(trades, BUY, s), Traded(trades, SELL, s)) && Sound(b)
    ensures a.positions.Keys <= b.positions.Keys && (Traded(trades, SELL, s) != 0 ==> s in b.positions)
    decreases |trades|
  {
    hide Trades, Sound;
    if trades == [] {
      NothingTraded(m, a, day, b);
    } else {
      var n := |trades| - 1;
      LastTrade(m, a, day, trades, b);
      var before := AfterTrades(m, a, day, trades[..n]).value;
      TradesAreTPlusOne(m, a, day, trades[..n], before, s);
      TradeIsTPlusOne(m, before, day, trades[n].0, s);
    }
  }

  /** What a day's trading did to one security between the open and the close. */
  ghost predicate TradedTPlusOne(inputs: Inputs, run: Run, day: Date, s: Id)
    requires AtOpen(inputs, run, day).Ok? && OpenDay(inputs, run, day).Ok?
  {
    var opening := AtOpen(inputs, run, day).value;
    var morning := OpenDay(inputs, run, day).value;
    var closing := morning.fills.account;
    var bought, sold := Traded(morning.fills.trades, BUY, s), Traded(morning.fills.trades, SELL, s);
    && TPlusOne(opening, closing, day, s, bought, sold)
    && (sold != 0 ==> sold <= Get(opening.sellable, s))
    && (s in closing.positions ==> 0 <= Get(closing.sellable, s) <= closing.positions[s])
  }

  /** T+1 in every run. What a day sells of a security was sellable when trading opened; what it buys
      sits in buckets released on later days only; so no share is sold on the day it is bought. */
  lemma NoShareIsSoldOnItsPurchaseDay(inputs: Inputs, days: seq<Date>, day: Date, s: Id)
    requires ForwardCalendar(inputs.market) && SoundInputs(inputs) && Increasing(days + [day])
    requires RunDays(inputs, days).Ok? && OpenDay(inputs, RunDays(inputs, days).value, day).Ok?
    ensures AtOpen(inputs, RunDays(inputs, days).value, day).Ok?
    ensures TradedTPlusOne(inputs, RunDays(inputs, days).value, day, s)
  {
    assert forall i | 0 <= i < |days| :: (days + [day])[i] == days[i];
    assert (days + [day])[|days|] == day;
    EveryRunIsGood(inputs, days, day);
    SoundDayIsTPlusOne(inputs, RunDays(inputs, days).value, day, s);
  }

  lemma SoundDayIsTPlusOne(inputs: Inputs, run: Run, day: Date, s: Id)
    requires ForwardCalendar(inputs.market) && inputs.market.participation >= 0.0 && Sound(run.account)
    requires OpenDay(inputs, run, day).Ok?
    ensures AtOpen(inputs, run, day).Ok? && TradedTPlusOne(inputs, run, day, s)
  {
    var opening := AtOpen(inputs, run, day).value;
    OpeningIsSound(inputs, run, day);
    MorningTrades(inputs, run, day);
    var fills := OpenDay(inputs, run, day).value.fills;
    TradesAreTPlusOne(inputs.market, opening, day, fills.trades, fills.account, s);
  }

  lemma OpeningIsSound(inputs: Inputs, run: Run, day: Date)
    requires Sound(run.account) && AtOpen(inputs, run, day).Ok?
    ensures Sound(AtOpen(inputs, run, day).value) && AllAfter(AtOpen(inputs, run, day).value.pending, day)
  {
    var released := Accounts.ReleaseSellable(run.account, day).value;
    ReleaseKeepsRest(run.account, day);
    ExDatesKeepPending(released, inputs.actions, day, 0.0);
    ExDatesKeepSound(released, inputs.actions, day, 0.0);
    var ex := ExDates(released, inputs.actions, day, 0.0).value.0;
    PayAndListIsQuiet(ex, inputs.actions, day);
    PayAndListKeepPending(ex, inputs.actions, day);
  }

  lemma {:induction false} ExDatesKeepSound(a: Account, actions: seq<Action>, day: Date, declared: real)
    requires Sound(a) && ExDates(a, actions, day, declared).Ok?
    ensures Sound(ExDates(a, actions, day, declared).value.0)
    decreases |actions|
  {
    if actions != [] {
      if ExDue(a, actions[0], day) {
        ExDatesKeepSound(ApplyExDate(a, actions[0].event, actions[0].kind == SPLIT).value, actions[1..], day,
                         declared + a.entitlements[actions[0].event].cash);
      } else {
        ExDatesKeepSound(a, actions[1..], day, declared);
      }
    }
  }

  lemma {:induction false} PayAndListKeepPending(a: Account, actions: seq<Action>, day: Date)
    requires PayAndList(a, actions, day).Ok?
    ensures PayAndList(a, actions, day).value.pending == a.pending
    decreases |actions|
  {
    if actions != [] {
      PayAndListKeepPending(PayAndListOne(a, actions[0], day).value, actions[1..], day);
    }
  }
}
