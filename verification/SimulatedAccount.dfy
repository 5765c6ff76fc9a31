/** The account object the engine mutates. Every method is proved to take exactly the transition
    that module `Accounts` defines, including the refusals. */
module SimulatedAccounts {
  import opened Base
  import opened Execution
  import opened Accounts

  /** A method that returned `r` in state `now` did what the transition `expected` says. */
  ghost predicate Took<T>(r: Result<T>, now: Account, expected: Result<Account>) {
    match expected
    case Ok(next) => r.Ok? && now == next
    case Err(code) => r.Err? && r.code == code
  }

  class SimulatedAccount {
    var cashAvailable: real
    var cashReceivable: real
    var positions: map<Id, int>
    var sellableQuantities: map<Id, int>
    var pendingSellable: seq<Bucket>
    var entitlements: map<EventId, Entitlement>
    var ledger: seq<Event>

    function State(): Account
      reads this
    {
      Account(cashAvailable, cashReceivable, positions, sellableQuantities, pendingSellable, entitlements, ledger)
    }

    /** The caller may start from holdings; whether the start is accepted is `Open`'s answer. */
    constructor (initialCash: real, initialPositions: map<Id, int>, initialSellable: map<Id, int>)
      ensures Checked(State()) == Open(initialCash, initialPositions, initialSellable)
    {
      cashAvailable, cashReceivable := initialCash, 0.0;
      positions, sellableQuantities := initialPositions, initialSellable;
      pendingSellable, entitlements := [], map[];
      ledger := [CashInitialized(initialCash)];
    }

    method AssertInvariants() returns (r: Result<()>)
      ensures Took(r, State(), Checked(State()))
    {
      if cashAvailable < 0.0 || cashReceivable < 0.0 {
        return Err(BROKEN);
      }
      if exists s | s in positions :: positions[s] < 0 || !(0 <= Get(sellableQuantities, s) <= positions[s]) {
        return Err(BROKEN);
      }
      return Ok(());
    }

    method ApplyTrade(record: Record, release: Option<Date>) returns (r: Result<()>)
      modifies this
      ensures Took(r, State(), Accounts.ApplyTrade(old(State()), record, release))
    {
      hide AddPending, Sound;
      var s := record.security;
      if record.side == BUY {
        var cost := record.gross + record.fees.Total();
        if cost > cashAvailable || release.None? {
          return Err(BROKEN);
        }
        cashAvailable := cashAvailable - cost;
        positions := positions[s := Get(positions, s) + record.filled];
        pendingSellable := AddPending(pendingSellable, release.value, s, record.filled);
      } else {
        if record.filled > Get(sellableQuantities, s) {
          return Err(BROKEN);
        }
        positions := positions[s := Get(positions, s) - record.filled];
        sellableQuantities := sellableQuantities[s := Get(sellableQuantities, s) - record.filled];
        cashAvailable := cashAvailable + record.gross - record.fees.Total();
      }
      ledger := ledger + [TradeFilled(record)];
      r := AssertInvariants();
    }

    method ReleaseSellable(day: Date) returns (r: Result<()>)
      modifies this
      ensures Took(r, State(), Accounts.ReleaseSellable(old(State()), day))
    {
      hide Sound, EarliestDue;
      var due := EarliestDue(pendingSellable, day);
      while due.Some?
        invariant due == EarliestDue(pendingSellable, day)
        invariant ReleaseDue(State(), day) == ReleaseDue(old(State()), day)
        decreases |pendingSellable|
      {
        var lots := pendingSellable[due.value].lots;
        ghost var popped := WithoutBucket(State(), due.value);
        ReleaseLotsKeepsPending(popped, lots);
        pendingSellable := pendingSellable[..due.value] + pendingSellable[due.value + 1..];
        var i := 0;
        while i < |lots|
          invariant 0 <= i <= |lots|
          invariant ReleaseLots(State(), lots[i..]) == ReleaseLots(popped, lots)
          invariant pendingSellable == popped.pending
        {
          sellableQuantities :=
            sellableQuantities[lots[i].security := Get(sellableQuantities, lots[i].security) + lots[i].quantity];
          ledger := ledger + [SellableReleased(lots[i].security, lots[i].quantity)];
          i := i + 1;
        }
        due := EarliestDue(pendingSellable, day);
      }
      r := AssertInvariants();
    }

    method RecordEntitlement(event: EventId, e: Entitlement) returns (r: Result<()>)
      modifies this
      ensures Took(r, State(), Accounts.RecordEntitlement(old(State()), event, e))
    {
      entitlements := entitlements[event := e];
      ledger := ledger + [EntitlementRecorded(event, e)];
      r := AssertInvariants();
    }

    method ApplyEntitlementExDate(event: EventId, isSplit: bool) returns (r: Result<real>)
      requires event in entitlements
      modifies this
      ensures Took(r, State(), ApplyExDate(old(State()), event, isSplit))
      ensures r.Ok? ==> r.value == old(entitlements[event].cash)
    {
      hide Sound;
      var e := entitlements[event];
      cashReceivable := cashReceivable + e.cash;
      positions := positions[e.security := Get(positions, e.security) + e.stock];
      if e.splitSellable != 0 {
        sellableQuantities := sellableQuantities[e.security := Get(sellableQuantities, e.security) + e.splitSellable];
      }
      ledger := ledger + [CashDividendDeclared(event, e.cash)];
      if isSplit {
        ledger := ledger + [SplitApplied(event, e.security, e.stock, e.splitSellable)];
      } else {
        ledger := ledger + [StockDistributionApplied(event, e.security, e.stock)];
      }
      assert ledger == old(ledger) + [CashDividendDeclared(event, e.cash), ledger[|ledger| - 1]];
      var checked := AssertInvariants();
      r := if checked.Ok? then Ok(e.cash) else Err(checked.code);
    }

    method PayEntitlementCash(event: EventId) returns (r: Result<()>)
      requires event in entitlements
      modifies this
      ensures Took(r, State(), PayCash(old(State()), event))
    {
      var cash := entitlements[event].cash;
      cashReceivable := cashReceivable - cash;
      cashAvailable := cashAvailable + cash;
      ledger := ledger + [CashDividendPaid(event, cash)];
      r := AssertInvariants();
    }

    method ReleaseEntitlementStock(event: EventId, isSplit: bool) returns (r: Result<()>)
      requires event in entitlements
      modifies this
      ensures Took(r, State(), ReleaseStock(old(State()), event, isSplit))
    {
      if isSplit {
        return Ok(());
      }
      var e := entitlements[event];
      sellableQuantities := sellableQuantities[e.security := Get(sellableQuantities, e.security) + e.stock];
      ledger := ledger + [SellableReleased(e.security, e.stock)];
      r := AssertInvariants();
    }

    method RecordValuation(date: Date, nav: real)
      modifies this
      ensures State() == Accounts.RecordValuation(old(State()), date, nav)
    {
      ledger := ledger + [ValuationRecorded(date, nav)];
    }
  }
}
