/** The strategy's own view of a holding cycle, read against the ledger: when it is exact, when a
    distribution arriving on a flat position makes it stale, and when the strategy must refuse. */
module Cycles {
  import opened Base
  import opened Numeric
  import opened FeeSchedule
  import opened Execution
  import opened Accounts
  import opened Reducer
  import opened StagedDrawdown
  import opened IntentExecutor
  import opened Engine
  import opened Books
  import opened CapitalCap

  /** Every recorded fill traded shares for money. */
  ghost predicate RealFills(ledger: seq<Event>) {
    forall i | 0 <= i < |ledger| && ledger[i].TradeFilled? ::
      ledger[i].record.filled > 0 && ledger[i].record.gross > 0.0 && ledger[i].record.fees.Total() >= 0.0
  }

  function Tracking(capital: real, ledger: seq<Event>, s: Id): PositionState {
    var replayed := Replay(capital, ledger);
    if replayed.Ok? then PositionOf(replayed.value, s) else FLAT
  }

  lemma PrefixReplays(capital: real, ledger: seq<Event>)
    requires ledger != [] && Replay(capital, ledger).Ok?
    ensures Replay(capital, ledger[..|ledger| - 1]).Ok?
    ensures Replay(capital, ledger) == Apply(Replay(capital, ledger[..|ledger| - 1]).value, ledger[|ledger| - 1])
  {
  }

  lemma FlatIsTracked()
    ensures Tracked(FLAT) && FLAT.quantity == 0
  {
  }

  /** A ledger the reducer accepts is tracked share for share. */
  lemma {:induction false} ReplayTracksShares(capital: real, ledger: seq<Event>, s: Id)
    requires Replay(capital, ledger).Ok? && RealFills(ledger)
    ensures Tracked(Tracking(capital, ledger, s)) && Tracking(capital, ledger, s).quantity == LedgerShares(ledger, s)
  {
    hide Bought, Sold, Adjusted, Tracked;
    if ledger == [] {
      FlatIsTracked();
    } else {
      var n := |ledger| - 1;
      PrefixReplays(capital, ledger);
      ReplayTracksShares(capital, ledger[..n], s);
      var p := Tracking(capital, ledger[..n], s);
      match ledger[n] {
        case TradeFilled(r) =>
          if r.security == s {
            if r.side == BUY {
              BoughtIsTracked(p, r);
            } else {
              SoldIsTracked(p, r);
            }
          }
        case StockDistributionApplied(_, t, quantity) =>
          if t == s {
            AdjustedIsTracked(p, quantity);
          }
        case SplitApplied(_, t, quantity, _) =>
          if t == s {
            AdjustedIsTracked(p, quantity);
          }
        case _ =>
      }
    }
  }

  /** The tracked purchases a cycle starts with when shares arrive on a flat position. */
  function Stale(capital: real, ledger: seq<Event>, s: Id): real {
    if ledger == [] || LedgerShares(ledger, s) == 0 then 0.0
    else
      var before := ledger[..|ledger| - 1];
      if LedgerShares(before, s) != 0 then Stale(capital, before, s)
      else if ledger[|ledger| - 1].TradeFilled? then 0.0
      else Tracking(capital, before, s).cumulativeBuys
  }

  /** Exactly how far the tracked figure is off: it is the cycle's purchases plus what was stale. */
  lemma {:induction false} TrackedIsBoughtPlusStale(capital: real, ledger: seq<Event>, s: Id)
    requires Replay(capital, ledger).Ok? && RealFills(ledger)
    requires LedgerShares(ledger, s) != 0
    ensures Tracking(capital, ledger, s).cumulativeBuys == CycleBought(ledger, s) + Stale(capital, ledger, s)
  {
    if ledger != [] {
      var n := |ledger| - 1;
      PrefixReplays(capital, ledger);
      ReplayTracksShares(capital, ledger[..n], s);
      ReplayTracksShares(capital, ledger, s);
      if LedgerShares(ledger[..n], s) != 0 {
        TrackedIsBoughtPlusStale(capital, ledger[..n], s);
      }
    }
  }

  /** No distribution or split brings shares while the position is zero. */
  ghost predicate NoFlatAdjustment(ledger: seq<Event>, s: Id) {
    forall i | 0 <= i < |ledger| && !ledger[i].TradeFilled? && ShareDelta(ledger[i], s) != 0 ::
      LedgerShares(ledger[..i], s) != 0
  }

  lemma PrefixFacts(ledger: seq<Event>, s: Id)
    requires ledger != []
    ensures RealFills(ledger) ==> RealFills(ledger[..|ledger| - 1])
    ensures NoFlatAdjustment(ledger, s) ==> NoFlatAdjustment(ledger[..|ledger| - 1], s)
    ensures NoFlatAdjustment(ledger, s) && !ledger[|ledger| - 1].TradeFilled?
            && ShareDelta(ledger[|ledger| - 1], s) != 0 ==>
              LedgerShares(ledger[..|ledger| - 1], s) != 0
  {
    var n := |ledger| - 1;
    assert forall i | 0 <= i < n :: ledger[..n][..i] == ledger[..i];
  }

  /** A held position has a cost basis exactly when its cycle bought something, and such a position
      remembers after a partial sale the base it is selling down from. */
  ghost predicate Backed(p: PositionState, bought: real) {
    && bought >= 0.0 && p.basis >= 0.0
    && (p.quantity == 0 ==> p.basis == 0.0)
    && (p.quantity > 0 ==> (p.basis > 0.0 <==> bought > 0.0))
    && (p.quantity > 0 && bought > 0.0 && p.lastSide == Some(SELL) ==> p.exitBase.Some?)
  }

  lemma BasisAfterPartialSale(basis: real, quantity: int, filled: int)
    requires basis >= 0.0 && 0 < filled < quantity
    ensures var left := basis - basis / quantity as real * filled as real;
            left >= 0.0 && (left > 0.0 <==> basis > 0.0)
  {
    var share := basis / quantity as real;
    DivideThenMultiply(basis, quantity as real);
    QuotientIsMonotone(0.0, basis, quantity as real);
    if basis > 0.0 {
      assert share > 0.0;
      MulStrictlyMonotone(filled as real, quantity as real, share);
    }
  }

  lemma SoldIsBacked(p: PositionState, r: Record, bought: real)
    requires Tracked(p) && Backed(p, bought) && 0 < r.filled <= p.quantity
    ensures Backed(Sold(p, r), if r.filled == p.quantity then 0.0 else bought)
  {
    if r.filled < p.quantity {
      BasisAfterPartialSale(p.basis, p.quantity, r.filled);
    }
  }

  /** Along any ledger the reducer accepts, the strategy's cost basis and exit history are backed by the
      purchases of the cycle. */
  lemma {:induction false} PurchasesBackThePosition(capital: real, ledger: seq<Event>, s: Id)
    requires Replay(capital, ledger).Ok? && RealFills(ledger)
    ensures Backed(Tracking(capital, ledger, s), CycleBought(ledger, s))
  {
    hide LedgerShares;
    if ledger != [] {
      var n := |ledger| - 1;
      PrefixReplays(capital, ledger);
      PrefixFacts(ledger, s);
      PurchasesBackThePosition(capital, ledger[..n], s);
      ReplayTracksShares(capital, ledger[..n], s);
      ReplayTracksShares(capital, ledger, s);
      var p := Tracking(capital, ledger[..n], s);
      if ledger[n].TradeFilled? && ledger[n].record.side == SELL && ledger[n].record.security == s {
        SoldIsBacked(p, ledger[n].record, CycleBought(ledger[..n], s));
      }
    }
  }

  /** Without adjustments on a flat position, a held position was bought, and nothing is stale. */
  lemma {:induction false} WithoutFlatAdjustmentsStateIsExact(capital: real, ledger: seq<Event>, s: Id)
    requires Replay(capital, ledger).Ok? && RealFills(ledger) && NoFlatAdjustment(ledger, s)
    ensures Stale(capital, ledger, s) == 0.0
    ensures LedgerShares(ledger, s) != 0 ==> CycleBought(ledger, s) > 0.0
  {
    if ledger != [] {
      var n := |ledger| - 1;
      PrefixReplays(capital, ledger);
      PrefixFacts(ledger, s);
      WithoutFlatAdjustmentsStateIsExact(capital, ledger[..n], s);
      ReplayTracksShares(capital, ledger[..n], s);
      ReplayTracksShares(capital, ledger, s);
    }
  }

  // ----- a stale cycle, event by event

  /** Where the strategy's view of one security stands after a ledger. */
  ghost predicate At(capital: real, ledger: seq<Event>, s: Id, p: PositionState, asOf: Option<Date>, bought: real) {
    && Replay(capital, ledger).Ok?
    && Replay(capital, ledger).value.capital == capital && Replay(capital, ledger).value.asOf == asOf
    && Tracking(capital, ledger, s) == p
    && LedgerShares(ledger, s) == p.quantity >= 0 && CycleBought(ledger, s) == bought
  }

  lemma QuietEvent(capital: real, ledger: seq<Event>, s: Id, p: PositionState, asOf: Option<Date>, bought: real,
      e: Event)
    requires At(capital, ledger, s, p, asOf, bought)
    requires Silent(e) || e.CashDividendDeclared? || e == CashInitialized(capital)
    ensures At(capital, ledger + [e], s, p, asOf, bought)
  {
    LedgerAppend(capital, ledger, e);
    CycleAppend(ledger, e, s);
    assert (ledger + [e])[..|ledger|] == ledger;
  }

  lemma FillEvent(capital: real, ledger: seq<Event>, s: Id, p: PositionState, asOf: Option<Date>, bought: real,
      r: Record)
    requires At(capital, ledger, s, p, asOf, bought) && Tracked(p) && r.security == s && r.filled > 0
    requires (asOf.Some? ==> asOf.value <= r.date) && (r.side == SELL ==> r.filled == p.quantity)
    ensures var q := if r.side == BUY then Bought(p, r) else Sold(p, r);
            At(capital, ledger + [TradeFilled(r)], s, q, Some(r.date), if r.side == BUY then bought + r.gross else 0.0)
  {
    LedgerAppend(capital, ledger, TradeFilled(r));
    CycleAppend(ledger, TradeFilled(r), s);
    assert (ledger + [TradeFilled(r)])[..|ledger|] == ledger;
    if r.side == BUY {
      BoughtIsTracked(p, r);
    } else {
      SoldIsTracked(p, r);
    }
  }

  lemma DistributionEvent(
    capital: real, ledger: seq<Event>, s: Id, p: PositionState, asOf: Option<Date>, bought: real, event: EventId,
    quantity: nat)
    requires At(capital, ledger, s, p, asOf, bought) && Tracked(p)
    ensures At(capital, ledger + [StockDistributionApplied(event, s, quantity)], s, Adjusted(p, quantity), asOf, bought)
  {
    var e := StockDistributionApplied(event, s, quantity);
    LedgerAppend(capital, ledger, e);
    CycleAppend(ledger, e, s);
    AdjustedIsTracked(p, quantity);
    assert (ledger + [e])[..|ledger|] == ledger;
  }

  function Free(): Fees {
    Fees(0.0, 0.0, 0.0)
  }

  function Traded100(day: Date, s: Id, side: Side): Record {
    Record(day, s, side, 100, 100, 1.0, 100.0, Free(), true, None)
  }

  const BONUS := 7

  function Bonus(s: Id): Entitlement {
    Entitlement(s, 0.0, 10, 0)
  }

  /** What the account writes when it buys 100 shares at 1, earns a distribution of 10 on them, sells all 100,
      receives the 10, and then fills a pending entry order of 100. */
  function StaleLedger(s: Id): seq<Event> {
    [CashInitialized(1000.0), TradeFilled(Traded100(1, s, BUY)), EntitlementRecorded(BONUS, Bonus(s)),
     SellableReleased(s, 100), TradeFilled(Traded100(2, s, SELL)), CashDividendDeclared(BONUS, 0.0),
     StockDistributionApplied(BONUS, s, 10), TradeFilled(Traded100(3, s, BUY))]
  }

  /** The account after the first `n` events of that ledger. */
  function StaleAccount(
    s: Id, n: nat, cash: real, shares: int, sellable: int, pending: seq<Bucket>, entitled: bool): Account
    requires n <= |StaleLedger(s)|
  {
    Account(cash, 0.0, if n < 2 then map[] else map[s := shares], if n < 4 then map[] else map[s := sellable],
            pending, if entitled then map[BONUS := Bonus(s)] else map[], StaleLedger(s)[..n])
  }

  function Waiting(day: Date, s: Id): seq<Bucket> {
    [Bucket(day, [Lot(s, 100)])]
  }

  /** Every one of its transitions is one the account takes. */
  lemma StaleLedgerIsWritten(s: Id)
    ensures Open(1000.0, map[], map[]) == Ok(StaleAccount(s, 1, 1000.0, 0, 0, [], false))
    ensures Accounts.ApplyTrade(StaleAccount(s, 1, 1000.0, 0, 0, [], false), Traded100(1, s, BUY), Some(2))
            == Ok(StaleAccount(s, 2, 900.0, 100, 0, Waiting(2, s), false))
    ensures Accounts.RecordEntitlement(StaleAccount(s, 2, 900.0, 100, 0, Waiting(2, s), false), BONUS, Bonus(s))
            == Ok(StaleAccount(s, 3, 900.0, 100, 0, Waiting(2, s), true))
    ensures Accounts.ReleaseSellable(StaleAccount(s, 3, 900.0, 100, 0, Waiting(2, s), true), 2)
            == Ok(StaleAccount(s, 4, 900.0, 100, 100, [], true))
    ensures Accounts.ApplyTrade(StaleAccount(s, 4, 900.0, 100, 100, [], true), Traded100(2, s, SELL), None)
            == Ok(StaleAccount(s, 5, 1000.0, 0, 0, [], true))
    ensures var before := StaleAccount(s, 5, 1000.0, 0, 0, [], true);
            BONUS in before.entitlements && ApplyExDate(before, BONUS, false)
              == Ok(StaleAccount(s, 7, 1000.0, 10, 0, [], true))
    ensures Accounts.ApplyTrade(StaleAccount(s, 7, 1000.0, 10, 0, [], true), Traded100(3, s, BUY), Some(4))
            == Ok(StaleAccount(s, 8, 900.0, 110, 0, Waiting(4, s), true))
  {
    StaleOpens(s);
    StaleBuys(s);
    StaleIsEntitled(s);
    StaleIsReleased(s);
    StaleSells(s);
    StaleIsDistributed(s);
    StaleBuysAgain(s);
  }

  lemma StaleOpens(s: Id)
    ensures Open(1000.0, map[], map[]) == Ok(StaleAccount(s, 1, 1000.0, 0, 0, [], false))
  {
    assert StaleLedger(s)[..1] == [CashInitialized(1000.0)];
  }

  lemma StaleBuys(s: Id)
    ensures Accounts.ApplyTrade(StaleAccount(s, 1, 1000.0, 0, 0, [], false), Traded100(1, s, BUY), Some(2))
            == Ok(StaleAccount(s, 2, 900.0, 100, 0, Waiting(2, s), false))
  {
    Grow(StaleLedger(s), 1);
    assert StaleLedger(s)[1] == TradeFilled(Traded100(1, s, BUY));
    hide StaleLedger;
    var before := StaleAccount(s, 1, 1000.0, 0, 0, [], false);
    FreeBuyOnAnEmptyQueue(before, Traded100(1, s, BUY), 2);
    assert Move(map[], s, 100) == map[s := 100];
  }

  lemma StaleIsEntitled(s: Id)
    ensures Accounts.RecordEntitlement(StaleAccount(s, 2, 900.0, 100, 0, Waiting(2, s), false), BONUS, Bonus(s))
            == Ok(StaleAccount(s, 3, 900.0, 100, 0, Waiting(2, s), true))
  {
    Grow(StaleLedger(s), 2);
  }

  lemma StaleIsReleased(s: Id)
    ensures Accounts.ReleaseSellable(StaleAccount(s, 3, 900.0, 100, 0, Waiting(2, s), true), 2)
            == Ok(StaleAccount(s, 4, 900.0, 100, 100, [], true))
  {
    Grow(StaleLedger(s), 3);
    var a := StaleAccount(s, 3, 900.0, 100, 0, Waiting(2, s), true);
    OnlyBucketIsReleased(a, 2, s);
    assert map[][s := 100] == map[s := 100];
  }

  lemma OnlyBucketIsReleased(a: Account, day: Date, s: Id)
    requires a.pending == [Bucket(day, [Lot(s, 100)])]
    ensures ReleaseDue(a, day)
            == a.(pending := [], sellable := Move(a.sellable, s, 100), ledger := a.ledger + [SellableReleased(s, 100)])
  {
    assert a.pending[1..] == [] && EarliestDue([], day) == None;
    var popped := WithoutBucket(a, 0);
    assert popped.pending == [];
    var lots := [Lot(s, 100)];
    assert lots[1..] == [];
    var once := popped.(sellable := Move(a.sellable, s, 100), ledger := a.ledger + [SellableReleased(s, 100)]);
    assert ReleaseLots(once, []) == once;
  }

  lemma StaleSells(s: Id)
    ensures Accounts.ApplyTrade(StaleAccount(s, 4, 900.0, 100, 100, [], true), Traded100(2, s, SELL), None)
            == Ok(StaleAccount(s, 5, 1000.0, 0, 0, [], true))
  {
    Grow(StaleLedger(s), 4);
    assert StaleLedger(s)[4] == TradeFilled(Traded100(2, s, SELL));
    hide StaleLedger;
    assert Move(map[s := 100], s, -100) == map[s := 0];
  }

  lemma StaleIsDistributed(s: Id)
    ensures var before := StaleAccount(s, 5, 1000.0, 0, 0, [], true);
            BONUS in before.entitlements && ApplyExDate(before, BONUS, false)
              == Ok(StaleAccount(s, 7, 1000.0, 10, 0, [], true))
  {
    var before := StaleAccount(s, 5, 1000.0, 0, 0, [], true);
    assert StaleLedger(s)[..7]
        == before.ledger + [CashDividendDeclared(BONUS, 0.0), StockDistributionApplied(BONUS, s, 10)];
    hide StaleLedger;
    assert Move(map[s := 0], s, 10) == map[s := 10];
  }

  lemma StaleBuysAgain(s: Id)
    ensures Accounts.ApplyTrade(StaleAccount(s, 7, 1000.0, 10, 0, [], true), Traded100(3, s, BUY), Some(4))
            == Ok(StaleAccount(s, 8, 900.0, 110, 0, Waiting(4, s), true))
  {
    Grow(StaleLedger(s), 7);
    assert StaleLedger(s)[7] == TradeFilled(Traded100(3, s, BUY));
    hide StaleLedger;
    var before := StaleAccount(s, 7, 1000.0, 10, 0, [], true);
    assert Sound(before);
    hide Accounts.ApplyTrade, Sound;
    FreeBuyOnAnEmptyQueue(before, Traded100(3, s, BUY), 4);
    assert Move(map[s := 10], s, 100) == map[s := 110];
  }

  lemma Grow(l: seq<Event>, n: nat)
    requires n < |l|
    ensures l[..n] + [l[n]] == l[..n + 1] && l[..0] == []
  {
  }

  /** The first cycle, up to the sale. */
  lemma StaleFirstCycle(s: Id, l: seq<Event>)
    requires l == StaleLedger(s)
    ensures At(1000.0, l[..5], s, Sold(Bought(FLAT, Traded100(1, s, BUY)), Traded100(2, s, SELL)), Some(2), 0.0)
  {
    hide At;
    var p := Bought(FLAT, Traded100(1, s, BUY));
    NothingYet(1000.0, s);
    Grow(l, 0);
    QuietEvent(1000.0, l[..0], s, FLAT, None, 0.0, l[0]);
    Grow(l, 1);
    FillEvent(1000.0, l[..1], s, FLAT, None, 0.0, Traded100(1, s, BUY));
    Grow(l, 2);
    QuietEvent(1000.0, l[..2], s, p, Some(1), 100.0, l[2]);
    Grow(l, 3);
    QuietEvent(1000.0, l[..3], s, p, Some(1), 100.0, l[3]);
    Grow(l, 4);
    FillEvent(1000.0, l[..4], s, p, Some(1), 100.0, Traded100(2, s, SELL));
  }

  /** The second cycle, opened by the distribution. */
  lemma StaleSecondCycle(s: Id, l: seq<Event>, q: PositionState)
    requires l == StaleLedger(s) && At(1000.0, l[..5], s, q, Some(2), 0.0) && Tracked(q) && Tracked(Adjusted(q, 10))
    ensures At(1000.0, l[..8], s, Bought(Adjusted(q, 10), Traded100(3, s, BUY)), Some(3), 100.0)
  {
    hide At, Tracked;
    Grow(l, 5);
    QuietEvent(1000.0, l[..5], s, q, Some(2), 0.0, l[5]);
    Grow(l, 6);
    DistributionEvent(1000.0, l[..6], s, q, Some(2), 0.0, BONUS, 10);
    Grow(l, 7);
    FillEvent(1000.0, l[..7], s, Adjusted(q, 10), Some(2), 0.0, Traded100(3, s, BUY));
  }

  lemma NothingYet(capital: real, s: Id)
    requires capital >= 0.0
    ensures At(capital, [], s, FLAT, None, 0.0)
  {
  }

  /** The cap on the tracked figure can fail. After these events, with a cap of 100, the tracked purchases of
      the open cycle are 200 although it bought 100; the difference is the first cycle's, gone stale. */
  lemma StaleCycleCounterexample(s: Id)
    ensures var ledger := StaleAccount(s, 8, 900.0, 110, 0, Waiting(4, s), true).ledger;
            && Replay(1000.0, ledger).Ok?
            && Tracking(1000.0, ledger, s).cumulativeBuys == 200.0
            && CycleBought(ledger, s) == 100.0
            && Stale(1000.0, ledger, s) == 100.0
  {
    var l := StaleLedger(s);
    assert l[..8] == l;
    StaleFirstCycle(s, l);
    var q := Sold(Bought(FLAT, Traded100(1, s, BUY)), Traded100(2, s, SELL));
    assert Tracked(q) && Tracked(Adjusted(q, 10)) && q.cumulativeBuys == 100.0 && q.quantity == 0;
    StaleSecondCycle(s, l, q);
    StaleFillsAreReal(s);
    TrackedIsBoughtPlusStale(1000.0, l, s);
  }

  lemma StaleFillsAreReal(s: Id)
    ensures RealFills(StaleLedger(s))
  {
  }

  // ----- the fills of a run are real

  lemma SilentSuffixKeepsRealFills(a: Account, b: Account)
    requires Quiet(a, b) && RealFills(a.ledger)
    ensures RealFills(b.ledger)
  {
  }

  lemma {:induction false} ExDatesKeepRealFills(a: Account, actions: seq<Action>, day: Date, declared: real)
    requires RealFills(a.ledger) && ExDates(a, actions, day, declared).Ok?
    ensures RealFills(ExDates(a, actions, day, declared).value.0.ledger)
    decreases |actions|
  {
    if actions != [] {
      if ExDue(a, actions[0], day) {
        ExDatesKeepRealFills(ApplyExDate(a, actions[0].event, actions[0].kind == SPLIT).value, actions[1..], day,
                             declared + a.entitlements[actions[0].event].cash);
      } else {
        ExDatesKeepRealFills(a, actions[1..], day, declared);
      }
    }
  }

  lemma {:induction false} TradesKeepRealFills(m: Market, a: Account, day: Date, trades: seq<(Record, Asset)>,
      b: Account)
    requires Sane(m.fees) && RealFills(a.ledger) && Trades(m, a, day, trades, b)
    ensures RealFills(b.ledger)
    decreases |trades|
  {
    hide Trades;
    if trades == [] {
      NothingTraded(m, a, day, b);
    } else {
      var n := |trades| - 1;
      LastTrade(m, a, day, trades, b);
      var before := AfterTrades(m, a, day, trades[..n]).value;
      TradesKeepRealFills(m, a, day, trades[..n], before);
      assert b.ledger == before.ledger + [TradeFilled(trades[n].0)];
    }
  }

  lemma OpenDayKeepsRealFills(inputs: Inputs, run: Run, day: Date)
    requires SoundInputs(inputs) && Sane(inputs.market.fees) && GoodRun(inputs, run, day)
    requires RealFills(run.account.ledger) && OpenDay(inputs, run, day).Ok?
    ensures RealFills(OpenDay(inputs, run, day).value.fills.account.ledger)
  {
    hide ExDates, PayAndList, ExecuteDue, Trades, Follows, CashBalances, SharesBalance;
    var capital := inputs.capital;
    var released := Accounts.ReleaseSellable(run.account, day).value;
    ReleaseDueIsQuiet(run.account, day);
    QuietKeepsGood(run.account, released, capital, day);
    var ex := ExDates(released, inputs.actions, day, 0.0).value.0;
    ExDatesKeepGood(released, inputs.actions, day, 0.0, capital);
    ExDatesKeepRealFills(released, inputs.actions, day, 0.0);
    var listed := PayAndList(ex, inputs.actions, day).value;
    PayAndListIsQuiet(ex, inputs.actions, day);
    QuietKeepsGood(ex, listed, capital, day);
    if day in run.pending {
      DueTrades(inputs.market, listed, run.strategy.capital, day, run.pending[day]);
      var fills := ExecuteDue(inputs.market, listed, run.strategy.capital, day, run.pending[day]).value.fills;
      TradesKeepRealFills(inputs.market, listed, day, fills.trades, fills.account);
    }
  }

  lemma CloseDayKeepsRealFills(inputs: Inputs, run: Run, morning: Morning, day: Date)
    requires SoundInputs(inputs) && Good(morning.fills.account, inputs.capital, day)
    requires RealFills(morning.fills.account.ledger) && CloseDay(inputs, run, morning, day).Ok?
    ensures RealFills(CloseDay(inputs, run, morning, day).value.account.ledger)
  {
    var closed := CloseDay(inputs, run, morning, day).value;
    var valued := Accounts.RecordValuation(morning.fills.account, day, closed.daily[|closed.daily| - 1].nav);
    RecordAllIsQuiet(valued, inputs.actions, day);
    SilentSuffixKeepsRealFills(valued, closed.account);
  }

  lemma {:induction false} EveryRunFillsForReal(inputs: Inputs, days: seq<Date>)
    requires SoundInputs(inputs) && Sane(inputs.market.fees) && Increasing(days) && RunDays(inputs, days).Ok?
    ensures RealFills(RunDays(inputs, days).value.account.ledger)
    decreases |days|
  {
    if days != [] {
      var n := |days| - 1;
      EveryRunFillsForReal(inputs, days[..n]);
      EveryRunIsGood(inputs, days[..n], days[n]);
      DayFillsForReal(inputs, RunDays(inputs, days[..n]).value, days[n]);
    }
  }

  lemma DayFillsForReal(inputs: Inputs, run: Run, day: Date)
    requires SoundInputs(inputs) && Sane(inputs.market.fees) && GoodRun(inputs, run, day)
    requires RealFills(run.account.ledger) && RunDay(inputs, run, day).Ok?
    ensures RealFills(RunDay(inputs, run, day).value.account.ledger)
  {
    var morning := OpenDay(inputs, run, day).value;
    OpenDayKeepsGood(inputs, run, day);
    OpenDayKeepsRealFills(inputs, run, day);
    CloseDayKeepsRealFills(inputs, run, morning, day);
  }

  /** A day up to the point where its decision is due. */
  function Closed(inputs: Inputs, run: Run, day: Date): Result<Run> {
    var morning :- OpenDay(inputs, run, day);
    CloseDay(inputs, run, morning, day)
  }

  lemma ClosedIsExact(inputs: Inputs, days: seq<Date>, day: Date)
    requires SoundInputs(inputs) && Sane(inputs.market.fees) && Increasing(days + [day]) && RunDays(inputs, days).Ok?
    requires Closed(inputs, RunDays(inputs, days).value, day).Ok?
    ensures var closed := Closed(inputs, RunDays(inputs, days).value, day).value;
            && Fold(closed.strategy, From(closed.account.ledger, closed.cursor))
               == Replay(inputs.capital, closed.account.ledger)
            && Replay(inputs.capital, closed.account.ledger).Ok? && RealFills(closed.account.ledger)
  {
    var run := RunDays(inputs, days).value;
    assert forall i | 0 <= i < |days| :: (days + [day])[i] == days[i];
    assert days != [] ==> (days + [day])[|days| - 1] < (days + [day])[|days|];
    EveryRunIsGood(inputs, days, day);
    EveryRunFillsForReal(inputs, days);
    OpenDayKeepsGood(inputs, run, day);
    OpenDayKeepsRealFills(inputs, run, day);
    var morning := OpenDay(inputs, run, day).value;
    CloseDayKeepsGood(inputs, run, morning, day);
    CloseDayKeepsRealFills(inputs, run, morning, day);
    var closed := CloseDay(inputs, run, morning, day).value;
    CursorSurvives(closed, closed.account.ledger, inputs.capital);
  }

  /** When the strategy refuses its own state. On any day of any run that gets as far as the decision, the
      fold before it succeeds, and on the folded position the strategy, given a complete history, reports a state
      error if and only if it holds shares although the cycle, read off the ledger, bought none. */
  lemma StagedStateErrorExactlyWhen(
    inputs: Inputs, v: Parameters, h: History, days: seq<Date>, day: Date)
    requires SoundInputs(inputs) && Sane(inputs.market.fees) && Increasing(days + [day]) && RunDays(inputs, days).Ok?
    requires Closed(inputs, RunDays(inputs, days).value, day).Ok?
    requires ValidParameters(v)
    ensures var closed := Closed(inputs, RunDays(inputs, days).value, day).value;
            var ledger := closed.account.ledger;
            var state := Fold(closed.strategy, From(ledger, closed.cursor));
            && state.Ok?
            && (Decide(v, inputs.capital, PositionOf(state.value, v.security), h) == Err(INVALID)
                <==> && UsableHistory(v, h)
                     && LedgerShares(ledger, v.security) != 0 && CycleBought(ledger, v.security) == 0.0)
  {
    ClosedIsExact(inputs, days, day);
    var ledger := Closed(inputs, RunDays(inputs, days).value, day).value.account.ledger;
    ReplayTracksShares(inputs.capital, ledger, v.security);
    PurchasesBackThePosition(inputs.capital, ledger, v.security);
    DecideRefusesStateExactlyWhen(v, inputs.capital, Tracking(inputs.capital, ledger, v.security), h);
  }

  /** So it never does on a ledger in which no distribution arrives on a flat position, and there the budget
      is computed from the cycle's true purchases. */
  lemma StagedStateErrorsAreUnreachable(
    inputs: Inputs, v: Parameters, h: History, days: seq<Date>, day: Date)
    requires SoundInputs(inputs) && Sane(inputs.market.fees) && Increasing(days + [day]) && RunDays(inputs, days).Ok?
    requires Closed(inputs, RunDays(inputs, days).value, day).Ok?
    requires ValidParameters(v)
    requires NoFlatAdjustment(Closed(inputs, RunDays(inputs, days).value, day).value.account.ledger, v.security)
    ensures var closed := Closed(inputs, RunDays(inputs, days).value, day).value;
            var ledger := closed.account.ledger;
            var state := Fold(closed.strategy, From(ledger, closed.cursor));
            && state.Ok?
            && Decide(v, inputs.capital, PositionOf(state.value, v.security), h) != Err(INVALID)
            && CycleBuys(PositionOf(state.value, v.security)) == CycleBought(ledger, v.security)
  {
    StagedStateErrorExactlyWhen(inputs, v, h, days, day);
    ClosedIsExact(inputs, days, day);
    var ledger := Closed(inputs, RunDays(inputs, days).value, day).value.account.ledger;
    WithoutFlatAdjustmentsStateIsExact(inputs.capital, ledger, v.security);
    ReplayTracksShares(inputs.capital, ledger, v.security);
    if LedgerShares(ledger, v.security) != 0 {
      TrackedIsBoughtPlusStale(inputs.capital, ledger, v.security);
    }
  }
}
