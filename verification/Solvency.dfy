/** Outside trading the account's own assertion cannot fire. What every run keeps, the placement of each
    share and the cash still owed on each right, makes every release, ex date, payment, listing and
    recording acceptable. */
module Solvency {
  import opened Base
  import opened Execution
  import opened Accounts
  import opened IntentExecutor
  import opened Engine
  import opened Books
  import opened Shares

  // ----- cash declared and not yet paid

  function UnpaidBy(entitlements: map<EventId, Entitlement>, action: Action, exDay: Date, payDay: Date): real {
    if action.event in entitlements && action.ex <= exDay && action.pay > payDay then
      entitlements[action.event].cash
    else 0.0
  }

  function Unpaid(entitlements: map<EventId, Entitlement>, actions: seq<Action>, exDay: Date, payDay: Date): real {
    if actions == [] then 0.0
    else UnpaidBy(entitlements, actions[0], exDay, payDay) + Unpaid(entitlements, actions[1..], exDay, payDay)
  }

  /** No dividend is paid before its ex date, and none is negative. */
  ghost predicate Payable(actions: seq<Action>) {
    forall i | 0 <= i < |actions| :: actions[i].ex <= actions[i].pay && actions[i].cashPerShare >= 0.0
  }

  ghost predicate RightsNonnegative(entitlements: map<EventId, Entitlement>) {
    forall event | event in entitlements ::
      entitlements[event].cash >= 0.0 && 0 <= entitlements[event].splitSellable <= entitlements[event].stock
  }

  ghost predicate LotsNonnegative(lots: seq<Lot>) {
    forall i | 0 <= i < |lots| :: lots[i].quantity >= 0
  }

  ghost predicate PendingNonnegative(buckets: seq<Bucket>) {
    forall i | 0 <= i < |buckets| :: LotsNonnegative(buckets[i].lots)
  }

  /** Of every security, what is sellable is held. */
  ghost predicate Covered(a: Account) {
    a.cash >= 0.0 && a.receivable >= 0.0 && forall s :: 0 <= Get(a.sellable, s) <= Get(a.positions, s)
  }

  /** What each step of an opening keeps, whatever is still to be paid or listed. */
  ghost predicate Steady(a: Account) {
    && a.cash >= 0.0 && a.receivable >= 0.0
    && RightsNonnegative(a.entitlements) && PendingNonnegative(a.pending)
    && forall s :: Get(a.sellable, s) >= 0 && Rest(a, s) >= 0
  }

  /** What every run keeps: shares are placed, and the receivable covers every right that is ex and unpaid. */
  ghost predicate Solvent(a: Account, actions: seq<Action>, day: Date) {
    && a.cash >= 0.0 && a.receivable >= Unpaid(a.entitlements, actions, day, day)
    && RightsNonnegative(a.entitlements) && PendingNonnegative(a.pending)
    && (forall s :: Get(a.sellable, s) >= 0)
    && Decomposed(a, actions, day, day) && OnlySplitsSellAtOnce(a.entitlements, actions)
  }

  // ----- sums of nonnegative parts

  lemma {:induction false} LotsAreNonnegative(lots: seq<Lot>, s: Id)
    requires LotsNonnegative(lots)
    ensures LotsOf(lots, s) >= 0
  {
    if lots != [] {
      LotsAreNonnegative(lots[1..], s);
    }
  }

  lemma {:induction false} PendingIsNonnegative(buckets: seq<Bucket>, s: Id)
    requires PendingNonnegative(buckets)
    ensures PendingOf(buckets, s) >= 0
  {
    if buckets != [] {
      LotsAreNonnegative(buckets[0].lots, s);
      PendingIsNonnegative(buckets[1..], s);
    }
  }

  lemma {:induction false} UndeliveredIsNonnegative(
    entitlements: map<EventId, Entitlement>, actions: seq<Action>, s: Id, exDay: Date, listDay: Date)
    requires RightsNonnegative(entitlements)
    ensures Undelivered(entitlements, actions, s, exDay, listDay) >= 0
  {
    if actions != [] {
      UndeliveredIsNonnegative(entitlements, actions[1..], s, exDay, listDay);
    }
  }

  lemma {:induction false} UnpaidIsNonnegative(
    entitlements: map<EventId, Entitlement>, actions: seq<Action>, exDay: Date, payDay: Date)
    requires RightsNonnegative(entitlements)
    ensures Unpaid(entitlements, actions, exDay, payDay) >= 0.0
  {
    if actions != [] {
      UnpaidIsNonnegative(entitlements, actions[1..], exDay, payDay);
    }
  }

  lemma MovedBy(m: map<Id, int>, s: Id, quantity: int, t: Id)
    ensures Get(Move(m, s, quantity), t) == Get(m, t) + if s == t then quantity else 0
  {
  }

  lemma CoveredIsSound(a: Account)
    requires Covered(a)
    ensures Sound(a) && forall s :: s in a.positions || Get(a.sellable, s) == 0
  {
  }

  lemma SteadyIsCovered(a: Account)
    requires Steady(a)
    ensures Covered(a)
  {
    forall s
      ensures 0 <= Get(a.sellable, s) <= Get(a.positions, s)
    {
      PendingIsNonnegative(a.pending, s);
    }
  }

  lemma SolventIsSteady(a: Account, actions: seq<Action>, day: Date)
    requires Solvent(a, actions, day)
    ensures Steady(a)
  {
    UnpaidIsNonnegative(a.entitlements, actions, day, day);
    forall s
      ensures Rest(a, s) >= 0
    {
      UndeliveredIsNonnegative(a.entitlements, actions, s, day, day);
    }
  }

  /** The sellable bound follows from where the shares are: what a position has beyond its sellable shares is
      waiting in buckets or undelivered, and neither can be negative. */
  lemma SellableFollowsFromPlacement(a: Account, actions: seq<Action>, day: Date)
    requires Solvent(a, actions, day)
    ensures forall s :: 0 <= Get(a.sellable, s) <= Get(a.positions, s)
    ensures a.receivable >= Unpaid(a.entitlements, actions, day, day) >= 0.0
  {
    SolventIsSteady(a, actions, day);
    SteadyIsCovered(a);
    UnpaidIsNonnegative(a.entitlements, actions, day, day);
  }

  // ----- release

  lemma {:induction false} ReleaseLotsKeepsSellable(a: Account, lots: seq<Lot>)
    requires LotsNonnegative(lots) && forall s :: Get(a.sellable, s) >= 0
    ensures forall s :: Get(ReleaseLots(a, lots).sellable, s) >= 0
    decreases |lots|
  {
    if lots != [] {
      var next := a.(sellable := Move(a.sellable, lots[0].security, lots[0].quantity),
                     ledger := a.ledger + [SellableReleased(lots[0].security, lots[0].quantity)]);
      forall s
        ensures Get(next.sellable, s) >= 0
      {
        MovedBy(a.sellable, lots[0].security, lots[0].quantity, s);
      }
      ReleaseLotsKeepsSellable(next, lots[1..]);
    }
  }

  lemma {:induction false} ReleaseDueKeepsNonnegative(a: Account, day: Date)
    requires PendingNonnegative(a.pending) && forall s :: Get(a.sellable, s) >= 0
    ensures PendingNonnegative(ReleaseDue(a, day).pending) && forall s :: Get(ReleaseDue(a, day).sellable, s) >= 0
    decreases |a.pending|
  {
    var due := EarliestDue(a.pending, day);
    if due.Some? {
      var popped := WithoutBucket(a, due.value);
      var lots := a.pending[due.value].lots;
      ReleaseLotsKeepsPending(popped, lots);
      ReleaseLotsKeepsSellable(popped, lots);
      ReleaseDueKeepsNonnegative(ReleaseLots(popped, lots), day);
    }
  }

  lemma ReleaseSucceeds(a: Account, day: Date)
    requires Steady(a)
    ensures Accounts.ReleaseSellable(a, day) == Ok(ReleaseDue(a, day)) && Steady(ReleaseDue(a, day))
    ensures SameHoldings(a, ReleaseDue(a, day))
  {
    hide ReleaseDue, Rest;
    ReleaseKeepsRest(a, day);
    ReleaseDueMoves(a, day, 0);
    ReleaseDueKeepsNonnegative(a, day);
    SteadyIsCovered(ReleaseDue(a, day));
    CoveredIsSound(ReleaseDue(a, day));
  }

  // ----- ex dates

  lemma ExDateSucceeds(a: Account, event: EventId, isSplit: bool)
    requires Steady(a) && event in a.entitlements
    ensures ApplyExDate(a, event, isSplit).Ok? && Steady(ApplyExDate(a, event, isSplit).value)
    ensures ApplyExDate(a, event, isSplit).value.entitlements == a.entitlements
    ensures ApplyExDate(a, event, isSplit).value.receivable == a.receivable + a.entitlements[event].cash
  {
    var e := a.entitlements[event];
    var b := a.(receivable := a.receivable + e.cash, positions := Move(a.positions, e.security, e.stock),
                sellable := if e.splitSellable != 0 then Move(a.sellable, e.security, e.splitSellable) else a.sellable);
    forall s
      ensures Get(b.sellable, s) >= 0 && Rest(b, s) >= 0
    {
      assert Rest(a, s) >= 0;
      MovedBy(a.positions, e.security, e.stock, s);
      MovedBy(a.sellable, e.security, e.splitSellable, s);
    }
    LedgerIsNoMatter(b, AfterExDate(a, event, isSplit));
  }

  function AfterExDate(a: Account, event: EventId, isSplit: bool): seq<Event>
    requires event in a.entitlements
  {
    var e := a.entitlements[event];
    a.ledger + [CashDividendDeclared(event, e.cash),
                if isSplit then SplitApplied(event, e.security, e.stock, e.splitSellable)
                else StockDistributionApplied(event, e.security, e.stock)]
  }

  lemma LedgerIsNoMatter(a: Account, ledger: seq<Event>)
    requires Steady(a)
    ensures Steady(a.(ledger := ledger)) && Checked(a.(ledger := ledger)) == Ok(a.(ledger := ledger))
  {
    var b := a.(ledger := ledger);
    assert forall s :: Rest(b, s) == Rest(a, s);
    SteadyIsCovered(b);
    CoveredIsSound(b);
  }

  /** Applying ex dates never raises, and adds to the receivable exactly what becomes owed. */
  lemma {:induction false} ExDatesSucceed(a: Account, actions: seq<Action>, day: Date, declared: real)
    requires Steady(a) && Payable(actions)
    ensures ExDates(a, actions, day, declared).Ok?
    ensures var b := ExDates(a, actions, day, declared).value.0;
            && Steady(b) && b.entitlements == a.entitlements
            && b.receivable == a.receivable + Unpaid(a.entitlements, actions, day, day - 1)
                                            - Unpaid(a.entitlements, actions, day - 1, day - 1)
    decreases |actions|
  {
    hide Steady, ApplyExDate;
    if actions != [] {
      assert forall i | 0 <= i < |actions[1..]| :: actions[1..][i] == actions[i + 1];
      if ExDue(a, actions[0], day) {
        ExDateSucceeds(a, actions[0].event, actions[0].kind == SPLIT);
        var next := ApplyExDate(a, actions[0].event, actions[0].kind == SPLIT).value;
        ExDatesSucceed(next, actions[1..], day, declared + a.entitlements[actions[0].event].cash);
      } else {
        ExDatesSucceed(a, actions[1..], day, declared);
      }
    }
  }

  // ----- payments and listings

  /** The receivable and the undelivered shares cover what is still to be paid and listed. */
  ghost predicate Owes(a: Account, actions: seq<Action>, day: Date) {
    && a.receivable >= Unpaid(a.entitlements, actions, day, day - 1)
    && forall s :: Rest(a, s) >= Undelivered(a.entitlements, actions, s, day, day - 1)
  }

  lemma PaymentSucceeds(a: Account, event: EventId)
    requires Steady(a) && event in a.entitlements && a.receivable >= a.entitlements[event].cash
    ensures PayCash(a, event).Ok? && Steady(PayCash(a, event).value)
  {
    hide PendingOf;
    SteadyIsCovered(a);
    assert forall s :: Rest(a.(receivable := a.receivable - a.entitlements[event].cash), s) == Rest(a, s);
  }

  lemma ListingSucceeds(a: Account, event: EventId)
    requires Steady(a) && event in a.entitlements
    requires Rest(a, a.entitlements[event].security) >= a.entitlements[event].stock
    ensures ReleaseStock(a, event, false).Ok? && Steady(ReleaseStock(a, event, false).value)
  {
    var e := a.entitlements[event];
    var b := a.(sellable := Move(a.sellable, e.security, e.stock));
    forall s
      ensures Get(b.sellable, s) >= 0 && Rest(b, s) >= 0
    {
      assert Rest(a, s) >= 0 && Get(a.sellable, s) >= 0;
      MovedBy(a.sellable, e.security, e.stock, s);
    }
    LedgerIsNoMatter(b, a.ledger + [SellableReleased(e.security, e.stock)]);
  }

  lemma PayAndListOneSucceeds(a: Account, actions: seq<Action>, day: Date)
    requires actions != [] && Steady(a) && Owes(a, actions, day)
    requires actions[0].ex <= actions[0].pay && actions[0].ex <= actions[0].list
    ensures PayAndListOne(a, actions[0], day).Ok?
    ensures var b := PayAndListOne(a, actions[0], day).value;
            && Steady(b) && Owes(b, actions[1..], day) && b.entitlements == a.entitlements
            && b.receivable == a.receivable + UnpaidBy(a.entitlements, actions[0], day, day)
                                            - UnpaidBy(a.entitlements, actions[0], day, day - 1)
  {
    var action, eve := actions[0], day - 1;
    UnpaidIsNonnegative(a.entitlements, actions[1..], day, eve);
    forall s
      ensures Undelivered(a.entitlements, actions[1..], s, day, eve) >= 0
    {
      UndeliveredIsNonnegative(a.entitlements, actions[1..], s, day, eve);
    }
    hide PayCash, ReleaseStock, Steady;
    if action.event in a.entitlements {
      var s := a.entitlements[action.event].security;
      if action.pay == day {
        SteadyRights(a, action.event);
        PaymentSucceeds(a, action.event);
        PaymentMoves(a, action.event);
      }
      var paid := if action.pay == day then PayCash(a, action.event).value else a;
      if action.list == day && action.kind != SPLIT {
        assert Rest(paid, s) == Rest(a, s) >= Undelivered(a.entitlements, actions, s, day, day - 1);
        assert UndeliveredBy(a.entitlements, action, s, day, eve) == a.entitlements[action.event].stock;
        ListingSucceeds(paid, action.event);
        ListingMoves(paid, action.event);
      }
      SteadyRights(a, action.event);
      SplitListingIsNothing(paid, action.event);
    }
  }

  lemma SteadyRights(a: Account, event: EventId)
    requires Steady(a) && event in a.entitlements
    ensures var e := a.entitlements[event]; e.cash >= 0.0 && 0 <= e.splitSellable <= e.stock
  {
  }

  lemma SplitListingIsNothing(a: Account, event: EventId)
    requires event in a.entitlements
    ensures ReleaseStock(a, event, true) == Ok(a)
  {
  }

  lemma PaymentMoves(a: Account, event: EventId)
    requires event in a.entitlements && PayCash(a, event).Ok?
    ensures var b := PayCash(a, event).value;
            && b.entitlements == a.entitlements && b.receivable == a.receivable - a.entitlements[event].cash
            && forall s :: Rest(b, s) == Rest(a, s)
  {
  }

  lemma ListingMoves(a: Account, event: EventId)
    requires event in a.entitlements && ReleaseStock(a, event, false).Ok?
    ensures var b, e := ReleaseStock(a, event, false).value, a.entitlements[event];
            && b.entitlements == a.entitlements && b.receivable == a.receivable
            && forall s :: Rest(b, s) == Rest(a, s) - if s == e.security then e.stock else 0
  {
  }

  /** Payments and listings never raise, and take from the receivable exactly what they pay. */
  lemma {:induction false} PayAndListSucceed(a: Account, actions: seq<Action>, day: Date)
    requires Steady(a) && Owes(a, actions, day) && Payable(actions)
    requires forall i | 0 <= i < |actions| :: actions[i].ex <= actions[i].list
    ensures PayAndList(a, actions, day).Ok?
    ensures var b := PayAndList(a, actions, day).value;
            && Steady(b) && b.entitlements == a.entitlements
            && b.receivable == a.receivable + Unpaid(a.entitlements, actions, day, day)
                                            - Unpaid(a.entitlements, actions, day, day - 1)
    decreases |actions|
  {
    hide Steady, Owes, PayAndListOne, UnpaidBy;
    if actions != [] {
      assert forall i | 0 <= i < |actions[1..]| :: actions[1..][i] == actions[i + 1];
      PayAndListOneSucceeds(a, actions, day);
      PayAndListSucceed(PayAndListOne(a, actions[0], day).value, actions[1..], day);
    }
  }

  /** Paying before the ex date is what the hypothesis excludes: with nothing receivable it raises. */
  lemma EarlyPaymentBreaks(a: Account, action: Action, day: Date)
    requires Sound(a) && a.receivable == 0.0 && action.event in a.entitlements && action.pay == day
    requires a.entitlements[action.event].cash > 0.0
    ensures PayAndListOne(a, action, day) == Err(BROKEN)
  {
  }

  // ----- the opening of a day

  lemma {:induction false} NothingBecomesOwedBetween(
    entitlements: map<EventId, Entitlement>, actions: seq<Action>, before: Date, day: Date)
    requires before < day && RightsNonnegative(entitlements)
    requires forall i | 0 <= i < |actions| :: !(before < actions[i].ex < day)
    ensures Unpaid(entitlements, actions, day - 1, day - 1) <= Unpaid(entitlements, actions, before, before)
  {
    if actions != [] {
      assert forall i | 0 <= i < |actions[1..]| :: actions[1..][i] == actions[i + 1];
      NothingBecomesOwedBetween(entitlements, actions[1..], before, day);
    }
  }

  /** No ex or listing date falls between the two days, and every row is in order. */
  ghost predicate Orderly(actions: seq<Action>, before: Date, day: Date) {
    && before < day && EventsNameActions(actions) && Payable(actions)
    && forall i | 0 <= i < |actions| ::
         && actions[i].record < actions[i].ex <= actions[i].list
         && !(before < actions[i].ex < day) && !(before < actions[i].list < day)
  }

  lemma ExDatesLeaveOwed(inputs: Inputs, run: Run, before: Date, day: Date)
    requires Solvent(run.account, inputs.actions, before) && Orderly(inputs.actions, before, day)
    ensures var released := ReleaseDue(run.account, day);
            && Accounts.ReleaseSellable(run.account, day) == Ok(released)
            && ExDates(released, inputs.actions, day, 0.0).Ok?
            && var ex := ExDates(released, inputs.actions, day, 0.0).value.0;
               Steady(ex) && Owes(ex, inputs.actions, day) && ex.entitlements == run.account.entitlements
  {
    hide Steady, ReleaseDue, ExDates, Rest, Unpaid, Undelivered;
    var a, actions := run.account, inputs.actions;
    var rights := a.entitlements;
    SolventIsSteady(a, actions, before);
    ReleaseSucceeds(a, day);
    ReleaseKeepsRest(a, day);
    var released := ReleaseDue(a, day);
    ExDatesSucceed(released, actions, day, 0.0);
    var ex := ExDates(released, actions, day, 0.0).value.0;
    NothingBecomesOwedBetween(rights, actions, before, day);
    forall s
      ensures Rest(ex, s) == Undelivered(rights, actions, s, day, day - 1)
    {
      NothingHappensBetween(rights, actions, s, before, day);
      ExDatesDeliver(released, actions, day, 0.0, s);
    }
  }

  lemma OpeningSucceeds(inputs: Inputs, run: Run, before: Date, day: Date)
    requires Solvent(run.account, inputs.actions, before) && Orderly(inputs.actions, before, day)
    ensures AtOpen(inputs, run, day).Ok? && Solvent(AtOpen(inputs, run, day).value, inputs.actions, day)
  {
    var actions := inputs.actions;
    ExDatesLeaveOwed(inputs, run, before, day);
    var released := ReleaseDue(run.account, day);
    var ex := ExDates(released, actions, day, 0.0).value.0;
    PayAndListSucceed(ex, actions, day);
    AtOpenIsDecomposed(inputs, run, before, day);
    hide ReleaseDue, ExDates, PayAndList, Unpaid, Decomposed, Rest;
  }

  // ----- trading

  lemma {:induction false} AddLotKeepsNonnegative(lots: seq<Lot>, s: Id, quantity: int)
    requires LotsNonnegative(lots) && quantity >= 0
    ensures LotsNonnegative(AddLot(lots, s, quantity))
  {
    if lots != [] && lots[0].security != s {
      AddLotKeepsNonnegative(lots[1..], s, quantity);
    }
  }

  lemma {:induction false} AddPendingKeepsNonnegative(buckets: seq<Bucket>, release: Date, s: Id, quantity: int)
    requires PendingNonnegative(buckets) && quantity >= 0
    ensures PendingNonnegative(AddPending(buckets, release, s, quantity))
  {
    if buckets != [] && buckets[0].release == release {
      AddLotKeepsNonnegative(buckets[0].lots, s, quantity);
    } else if buckets != [] {
      AddPendingKeepsNonnegative(buckets[1..], release, s, quantity);
    }
  }

  lemma TradeKeepsSolvent(m: Market, a: Account, day: Date, r: Record, b: Account, actions: seq<Action>)
    requires Solvent(a, actions, day) && RealTrade(m, a, day, r)
    requires Accounts.ApplyTrade(a, r, ReleaseDate(m, day, r.side)) == Ok(b)
    ensures Solvent(b, actions, day)
  {
    hide Unpaid, Undelivered, Rest, AddPending, PendingNonnegative;
    TradeKeepsRest(a, r, ReleaseDate(m, day, r.side));
    if r.side == BUY {
      AddPendingKeepsNonnegative(a.pending, ReleaseDate(m, day, BUY).value, r.security, r.filled);
    }
    forall s
      ensures Get(b.sellable, s) >= 0
    {
      assert Get(a.sellable, s) >= 0;
      MovedBy(a.sellable, r.security, -r.filled, s);
    }
    assert Decomposed(b, actions, day, day) by {
      assert forall s :: Rest(b, s) == Rest(a, s);
    }
  }

  lemma {:induction false} TradesKeepSolvent(
    m: Market, a: Account, day: Date, trades: seq<(Record, Asset)>, b: Account, actions: seq<Action>)
    requires Solvent(a, actions, day) && Trades(m, a, day, trades, b)
    ensures Solvent(b, actions, day)
    decreases |trades|
  {
    hide Trades, RealTrade, Solvent;
    if trades == [] {
      NothingTraded(m, a, day, b);
    } else {
      var n := |trades| - 1;
      LastTrade(m, a, day, trades, b);
      var before := AfterTrades(m, a, day, trades[..n]).value;
      TradesKeepSolvent(m, a, day, trades[..n], before, actions);
      TradeKeepsSolvent(m, before, day, trades[n].0, b, actions);
    }
  }

  // ----- recording

  lemma WholeShares(shares: int, held: int, ratio: real)
    requires 0 <= shares <= held && ratio >= 0.0
    ensures 0 <= (shares as real * ratio).Floor <= (held as real * ratio).Floor
  {
    assert shares as real * ratio >= 0.0;
    assert (held - shares) as real * ratio >= 0.0;
    assert held as real * ratio == shares as real * ratio + (held - shares) as real * ratio;
  }

  lemma PerShare(held: int, cash: real)
    requires held >= 0 && cash >= 0.0
    ensures held as real * cash >= 0.0
  {
  }

  lemma NewRightIsNonnegative(a: Account, action: Action)
    requires Covered(a) && EntitlementFor(a, action).Ok? && Ratio(action) >= 0.0 && action.cashPerShare >= 0.0
    ensures var e := EntitlementFor(a, action).value; e.cash >= 0.0 && 0 <= e.splitSellable <= e.stock
  {
    var quantity, sellable := Get(a.positions, action.security), Get(a.sellable, action.security);
    WholeShares(sellable, quantity, Ratio(action));
    WholeShares(quantity, quantity, Ratio(action));
    PerShare(quantity, action.cashPerShare);
  }

  lemma RecordOneSucceeds(a: Account, action: Action)
    requires Covered(a)
    ensures RecordOne(a, action).Ok? <==> EntitlementFor(a, action).Ok?
    ensures RecordOne(a, action).Err? ==> RecordOne(a, action) == Err(UNSUPPORTED_ACTION)
    ensures RecordOne(a, action).Ok? ==>
              var b := RecordOne(a, action).value;
              && Covered(b) && b.cash == a.cash && b.receivable == a.receivable && b.sellable == a.sellable
              && b.pending == a.pending && b.positions == a.positions
              && b.entitlements == a.entitlements[action.event := EntitlementFor(a, action).value]
  {
    hide Whole, Ratio;
    CoveredIsSound(a);
  }

  /** Recording rights refuses unsupported actions only; the account's assertion never fires. */
  lemma {:induction false} RecordAllNeverBreaks(a: Account, actions: seq<Action>, day: Date)
    requires Covered(a)
    ensures RecordAll(a, actions, day).Err? ==> RecordAll(a, actions, day) == Err(UNSUPPORTED_ACTION)
    decreases |actions|
  {
    hide RecordOne, Covered, EntitlementFor;
    if actions != [] {
      if actions[0].record == day {
        RecordOneSucceeds(a, actions[0]);
        if RecordOne(a, actions[0]).Ok? {
          RecordAllNeverBreaks(RecordOne(a, actions[0]).value, actions[1..], day);
        }
      } else {
        RecordAllNeverBreaks(a, actions[1..], day);
      }
    }
  }

  lemma {:induction false} NewRightsAreNotYetOwed(
    entitlements: map<EventId, Entitlement>, actions: seq<Action>, event: EventId, e: Entitlement, day: Date)
    requires forall i | 0 <= i < |actions| && actions[i].event == event :: actions[i].ex > day
    ensures Unpaid(entitlements[event := e], actions, day, day) == Unpaid(entitlements, actions, day, day)
  {
    if actions != [] {
      assert forall i | 0 <= i < |actions[1..]| :: actions[1..][i] == actions[i + 1];
      NewRightsAreNotYetOwed(entitlements, actions[1..], event, e, day);
    }
  }

  lemma RecordOneKeepsSolvent(a: Account, actions: seq<Action>, action: Action, day: Date)
    requires Solvent(a, actions, day) && RecordOne(a, action).Ok? && action in actions && action.record == day
    requires EventsNameActions(actions) && forall i | 0 <= i < |actions| :: actions[i].record < actions[i].ex
    requires Ratio(action) >= 0.0 && action.cashPerShare >= 0.0
    ensures Solvent(RecordOne(a, action).value, actions, day)
  {
    var e := EntitlementFor(a, action).value;
    SolventIsSteady(a, actions, day);
    SteadyIsCovered(a);
    RecordOneSucceeds(a, action);
    NewRightIsNonnegative(a, action);
    NewRightsAreNotYetOwed(a.entitlements, actions, action.event, e, day);
    RecordOneKeepsDecomposed(a, actions, action, day);
    hide RecordOne, EntitlementFor, Unpaid, Decomposed, OnlySplitsSellAtOnce;
  }

  lemma {:induction false} RecordAllKeepsSolvent(a: Account, actions: seq<Action>, rest: seq<Action>, day: Date)
    requires Solvent(a, actions, day) && RecordAll(a, rest, day).Ok?
    requires EventsNameActions(actions) && forall i | 0 <= i < |actions| :: actions[i].record < actions[i].ex
    requires forall action | action in rest :: action in actions && Ratio(action) >= 0.0 && action.cashPerShare >= 0.0
    ensures Solvent(RecordAll(a, rest, day).value, actions, day)
    decreases |rest|
  {
    hide Solvent, RecordOne, EventsNameActions, Ratio;
    if rest != [] {
      if rest[0].record == day {
        RecordOneKeepsSolvent(a, actions, rest[0], day);
        RecordAllKeepsSolvent(RecordOne(a, rest[0]).value, actions, rest[1..], day);
      } else {
        RecordAllKeepsSolvent(a, actions, rest[1..], day);
      }
    }
  }

  // ----- whole days and whole runs

  lemma ValuationKeepsSolvent(a: Account, actions: seq<Action>, day: Date, nav: real)
    requires Solvent(a, actions, day)
    ensures Solvent(Accounts.RecordValuation(a, day, nav), actions, day)
  {
    hide Unpaid, Undelivered;
    assert forall s :: Rest(Accounts.RecordValuation(a, day, nav), s) == Rest(a, s);
  }

  lemma MorningKeepsSolvent(inputs: Inputs, run: Run, before: Date, day: Date)
    requires SoundInputs(inputs) && Orderly(inputs.actions, before, day)
    requires Solvent(run.account, inputs.actions, before) && OpenDay(inputs, run, day).Ok?
    ensures Solvent(OpenDay(inputs, run, day).value.fills.account, inputs.actions, day)
  {
    hide OpenDay, AtOpen, Solvent, Trades;
    OpeningSucceeds(inputs, run, before, day);
    var opening := AtOpen(inputs, run, day).value;
    OpenAccountIsSound(opening, inputs.actions, day);
    MorningTrades(inputs, run, day);
    var fills := OpenDay(inputs, run, day).value.fills;
    TradesKeepSolvent(inputs.market, opening, day, fills.trades, fills.account, inputs.actions);
  }

  lemma OpenAccountIsSound(a: Account, actions: seq<Action>, day: Date)
    requires Solvent(a, actions, day)
    ensures Sound(a) && Covered(a)
  {
    SolventIsSteady(a, actions, day);
    SteadyIsCovered(a);
    CoveredIsSound(a);
  }

  lemma CloseDayRecords(inputs: Inputs, run: Run, morning: Morning, day: Date)
    requires CloseDay(inputs, run, morning, day).Ok?
    ensures var closed := CloseDay(inputs, run, morning, day).value;
            closed.daily != []
            && RecordAll(Accounts.RecordValuation(morning.fills.account, day, closed.daily[|closed.daily| - 1].nav),
                         inputs.actions, day)
               == Ok(closed.account)
  {
    hide RecordAll, DayContribution, FiguresOf;
  }

  lemma RunDayKeepsSolvent(inputs: Inputs, run: Run, before: Date, day: Date)
    requires SoundInputs(inputs) && Orderly(inputs.actions, before, day)
    requires Solvent(run.account, inputs.actions, before) && RunDay(inputs, run, day).Ok?
    ensures Solvent(RunDay(inputs, run, day).value.account, inputs.actions, day)
  {
    var morning := OpenDay(inputs, run, day).value;
    var closed := CloseDay(inputs, run, morning, day).value;
    DecideDayKeepsAccount(inputs, closed, day);
    hide OpenDay, CloseDay, DecideDay, Solvent, RecordAll;
    MorningKeepsSolvent(inputs, run, before, day);
    CloseDayRecords(inputs, run, morning, day);
    var nav := closed.daily[|closed.daily| - 1].nav;
    ValuationKeepsSolvent(morning.fills.account, inputs.actions, day, nav);
    var valued := Accounts.RecordValuation(morning.fills.account, day, nav);
    RecordAllKeepsSolvent(valued, inputs.actions, inputs.actions, day);
  }

  lemma DecideDayKeepsAccount(inputs: Inputs, run: Run, day: Date)
    ensures DecideDay(inputs, run, day).Ok? ==> DecideDay(inputs, run, day).value.account == run.account
  {
  }

  lemma {:induction false} NothingIsOwedYet(actions: seq<Action>, exDay: Date, payDay: Date)
    ensures Unpaid(map[], actions, exDay, payDay) == 0.0
  {
    if actions != [] {
      NothingIsOwedYet(actions[1..], exDay, payDay);
    }
  }

  lemma StartIsSolvent(inputs: Inputs, day: Date)
    requires Start(inputs).Ok?
    ensures Solvent(Start(inputs).value.account, inputs.actions, day)
  {
    NothingIsPlacedYet(inputs, day);
    NothingIsOwedYet(inputs.actions, day, day);
    hide Decomposed;
  }

  /** After the given days, as seen on the eve of a later one. */
  lemma {:induction false} EveryRunIsSolvent(inputs: Inputs, days: seq<Date>, day: Date) returns (before: Date)
    requires SoundInputs(inputs) && Payable(inputs.actions) && Increasing(days + [day])
    requires WellTimed(inputs.actions, days + [day]) && RunDays(inputs, days).Ok?
    ensures Orderly(inputs.actions, before, day)
    ensures Solvent(RunDays(inputs, days).value.account, inputs.actions, before)
    decreases |days|
  {
    hide Solvent, RunDay, Start, EventsNameActions, Payable;
    var all := days + [day];
    if days == [] {
      before := day - 1;
      StartIsSolvent(inputs, before);
    } else {
      var n := |days| - 1;
      assert days[..n] + [days[n]] == days;
      assert forall i | 0 <= i <= n :: days[i] == all[i];
      var eve := EveryRunIsSolvent(inputs, days[..n], days[n]);
      RunDayKeepsSolvent(inputs, RunDays(inputs, days[..n]).value, eve, days[n]);
      before := days[n];
      assert all[n] == before && all[n + 1] == day;
    }
  }

  /** No opening raises. On the next day of any run, releases, ex dates, payments and listings all go through,
      and leave of every security at most the position sellable and a receivable that covers what is owed. */
  lemma OpeningNeverBreaks(inputs: Inputs, days: seq<Date>, day: Date)
    requires SoundInputs(inputs) && Payable(inputs.actions) && Increasing(days + [day])
    requires WellTimed(inputs.actions, days + [day]) && RunDays(inputs, days).Ok?
    ensures AtOpen(inputs, RunDays(inputs, days).value, day).Ok?
    ensures var a := AtOpen(inputs, RunDays(inputs, days).value, day).value;
            && Solvent(a, inputs.actions, day) && Covered(a)
  {
    hide RunDays, AtOpen, Solvent;
    var before := EveryRunIsSolvent(inputs, days, day);
    OpeningSucceeds(inputs, RunDays(inputs, days).value, before, day);
    OpenAccountIsSound(AtOpen(inputs, RunDays(inputs, days).value, day).value, inputs.actions, day);
  }

  /** Nor does the recording of rights at the close, whatever the day traded and closed at. */
  lemma RecordingNeverBreaks(inputs: Inputs, days: seq<Date>, day: Date, nav: real)
    requires SoundInputs(inputs) && Payable(inputs.actions) && Increasing(days + [day])
    requires WellTimed(inputs.actions, days + [day]) && RunDays(inputs, days).Ok?
    requires OpenDay(inputs, RunDays(inputs, days).value, day).Ok?
    ensures var a := OpenDay(inputs, RunDays(inputs, days).value, day).value.fills.account;
            && Covered(a)
            && RecordAll(Accounts.RecordValuation(a, day, nav), inputs.actions, day) != Err(BROKEN)
  {
    hide RunDays, OpenDay, Solvent, RecordAll;
    var before := EveryRunIsSolvent(inputs, days, day);
    var run := RunDays(inputs, days).value;
    MorningKeepsSolvent(inputs, run, before, day);
    var a := OpenDay(inputs, run, day).value.fills.account;
    OpenAccountIsSound(a, inputs.actions, day);
    RecordAllNeverBreaks(Accounts.RecordValuation(a, day, nav), inputs.actions, day);
  }
}
