/** The simulated account as a value: each transition yields the next account or the refusal the
    program raises. `SimulatedAccount` updates its fields in place against these transitions. */
module Accounts {
  import opened Base
  import opened Execution

  /** A recorded right: after-tax cash, whole new shares, and for a split the part sellable at once. */
  datatype Entitlement = Entitlement(security: Id, cash: real, stock: int, splitSellable: int)

  datatype Event =
    | CashInitialized(amount: real)
    | TradeFilled(record: Record)
    | SellableReleased(security: Id, quantity: int)
    | EntitlementRecorded(event: EventId, entitlement: Entitlement)
    | CashDividendDeclared(event: EventId, amount: real)
    | CashDividendPaid(event: EventId, amount: real)
    | StockDistributionApplied(event: EventId, security: Id, quantity: int)
    | SplitApplied(event: EventId, security: Id, quantity: int, sellable: int)
    | ValuationRecorded(date: Date, nav: real)

  /** Bought shares wait in buckets by release date; both levels keep insertion order. */
  datatype Lot = Lot(security: Id, quantity: int)
  datatype Bucket = Bucket(release: Date, lots: seq<Lot>)

  datatype Account = Account(
    cash: real, receivable: real, positions: map<Id, int>, sellable: map<Id, int>,
    pending: seq<Bucket>, entitlements: map<EventId, Entitlement>, ledger: seq<Event>)

  const BROKEN := "BACKTEST_ACCOUNT_CONSERVATION_BROKEN"

  predicate Sound(a: Account) {
    && a.cash >= 0.0 && a.receivable >= 0.0
    && forall s | s in a.positions :: 0 <= Get(a.sellable, s) <= a.positions[s]
  }

  function Checked(a: Account): Result<Account> {
    if Sound(a) then Ok(a) else Err(BROKEN)
  }

  function Open(capital: real, positions: map<Id, int>, sellable: map<Id, int>): Result<Account> {
    Checked(Account(capital, 0.0, positions, sellable, [], map[], [CashInitialized(capital)]))
  }

  function AddLot(lots: seq<Lot>, s: Id, quantity: int): seq<Lot> {
    if lots == [] then [Lot(s, quantity)]
    else if lots[0].security == s then [Lot(s, lots[0].quantity + quantity)] + lots[1..]
    else [lots[0]] + AddLot(lots[1..], s, quantity)
  }

  function AddPending(buckets: seq<Bucket>, release: Date, s: Id, quantity: int): seq<Bucket> {
    if buckets == [] then [Bucket(release, [Lot(s, quantity)])]
    else if buckets[0].release == release then [Bucket(release, AddLot(buckets[0].lots, s, quantity))] + buckets[1..]
    else [buckets[0]] + AddPending(buckets[1..], release, s, quantity)
  }

  function Move(m: map<Id, int>, s: Id, quantity: int): map<Id, int> {
    m[s := Get(m, s) + quantity]
  }

  function ApplyTrade(a: Account, r: Record, release: Option<Date>): Result<Account> {
    if r.side == BUY then
      var cost := r.gross + r.fees.Total();
      if cost > a.cash || release.None? then Err(BROKEN)
      else
        Checked(a.(cash := a.cash - cost,
                   positions := Move(a.positions, r.security, r.filled),
                   pending := AddPending(a.pending, release.value, r.security, r.filled),
                   ledger := a.ledger + [TradeFilled(r)]))
    else if r.filled > Get(a.sellable, r.security) then Err(BROKEN)
    else
      Checked(a.(cash := a.cash + r.gross - r.fees.Total(),
                 positions := Move(a.positions, r.security, -r.filled),
                 sellable := Move(a.sellable, r.security, -r.filled),
                 ledger := a.ledger + [TradeFilled(r)]))
  }

  /** The first bucket of the earliest date not after `day`. */
  function EarliestDue(buckets: seq<Bucket>, day: Date): (due: Option<nat>)
    ensures due.Some? ==> due.value < |buckets| && buckets[due.value].release <= day
    ensures due.None? ==> forall b | b in buckets :: b.release > day
  {
    if buckets == [] then None
    else
      var rest := EarliestDue(buckets[1..], day);
      if buckets[0].release <= day
         && (rest.None? || buckets[0].release <= buckets[1..][rest.value].release)
      then Some(0)
      else if rest.None? then None
      else Some(rest.value + 1)
  }

  /** Buckets are released in the order of their dates, and of one date in the order they were made. */
  lemma {:induction false} EarliestComesFirst(buckets: seq<Bucket>, day: Date)
    requires EarliestDue(buckets, day).Some?
    ensures var due := EarliestDue(buckets, day).value;
            forall i | 0 <= i < |buckets| :: buckets[due].release <= buckets[i].release
                                          && (i < due ==> buckets[due].release < buckets[i].release)
  {
    if EarliestDue(buckets[1..], day).Some? {
      EarliestComesFirst(buckets[1..], day);
    }
    assert forall i | 0 < i < |buckets| :: buckets[i] == buckets[1..][i - 1];
  }

  function ReleaseLots(a: Account, lots: seq<Lot>): Account
    decreases |lots|
  {
    if lots == [] then a
    else
      ReleaseLots(
        a.(sellable := Move(a.sellable, lots[0].security, lots[0].quantity),
           ledger := a.ledger + [SellableReleased(lots[0].security, lots[0].quantity)]),
        lots[1..])
  }

  function WithoutBucket(a: Account, i: nat): (b: Account)
    requires i < |a.pending|
    ensures |b.pending| == |a.pending| - 1
  {
    a.(pending := a.pending[..i] + a.pending[i + 1..])
  }

  lemma ReleaseLotsKeepsPending(a: Account, lots: seq<Lot>)
    ensures ReleaseLots(a, lots).pending == a.pending
    decreases |lots|
  {
  }

  function ReleaseDue(a: Account, day: Date): Account
    decreases |a.pending|
  {
    var due := EarliestDue(a.pending, day);
    if due.None? then a
    else
      var popped := WithoutBucket(a, due.value);
      ReleaseLotsKeepsPending(popped, a.pending[due.value].lots);
      ReleaseDue(ReleaseLots(popped, a.pending[due.value].lots), day)
  }

  function ReleaseSellable(a: Account, day: Date): Result<Account> {
    Checked(ReleaseDue(a, day))
  }

  function RecordEntitlement(a: Account, event: EventId, e: Entitlement): Result<Account> {
    Checked(a.(entitlements := a.entitlements[event := e], ledger := a.ledger + [EntitlementRecorded(event, e)]))
  }

  function ApplyExDate(a: Account, event: EventId, isSplit: bool): Result<Account>
    requires event in a.entitlements
  {
    var e := a.entitlements[event];
    var adjustment :=
      if isSplit then SplitApplied(event, e.security, e.stock, e.splitSellable)
      else StockDistributionApplied(event, e.security, e.stock);
    Checked(a.(receivable := a.receivable + e.cash,
               positions := Move(a.positions, e.security, e.stock),
               sellable := if e.splitSellable != 0 then Move(a.sellable, e.security, e.splitSellable) else a.sellable,
               ledger := a.ledger + [CashDividendDeclared(event, e.cash), adjustment]))
  }

  function PayCash(a: Account, event: EventId): Result<Account>
    requires event in a.entitlements
  {
    var cash := a.entitlements[event].cash;
    Checked(a.(receivable := a.receivable - cash, cash := a.cash + cash,
               ledger := a.ledger + [CashDividendPaid(event, cash)]))
  }

  function ReleaseStock(a: Account, event: EventId, isSplit: bool): Result<Account>
    requires event in a.entitlements
  {
    if isSplit then Ok(a)
    else
      var e := a.entitlements[event];
      Checked(a.(sellable := Move(a.sellable, e.security, e.stock),
                 ledger := a.ledger + [SellableReleased(e.security, e.stock)]))
  }

  function RecordValuation(a: Account, date: Date, nav: real): Account {
    a.(ledger := a.ledger + [ValuationRecorded(date, nav)])
  }

  /** Shares of one security still waiting for their release date. */
  function LotsOf(lots: seq<Lot>, s: Id): int {
    if lots == [] then 0 else (if lots[0].security == s then lots[0].quantity else 0) + LotsOf(lots[1..], s)
  }

  function PendingOf(buckets: seq<Bucket>, s: Id): int {
    if buckets == [] then 0 else LotsOf(buckets[0].lots, s) + PendingOf(buckets[1..], s)
  }

  lemma {:induction false} AddLotAdds(lots: seq<Lot>, s: Id, quantity: int, t: Id)
    ensures LotsOf(AddLot(lots, s, quantity), t) == LotsOf(lots, t) + if s == t then quantity else 0
  {
    if lots == [] {
      assert LotsOf([Lot(s, quantity)], t) == (if s == t then quantity else 0) + LotsOf([], t);
    } else if lots[0].security == s {
      var added := [Lot(s, lots[0].quantity + quantity)] + lots[1..];
      assert added[1..] == lots[1..];
    } else {
      AddLotAdds(lots[1..], s, quantity, t);
      var added := [lots[0]] + AddLot(lots[1..], s, quantity);
      assert added[1..] == AddLot(lots[1..], s, quantity);
    }
  }

  lemma {:induction false} AddPendingAdds(buckets: seq<Bucket>, release: Date, s: Id, quantity: int, t: Id)
    ensures PendingOf(AddPending(buckets, release, s, quantity), t)
            == PendingOf(buckets, t) + if s == t then quantity else 0
  {
    if buckets == [] {
      AddLotAdds([], s, quantity, t);
      assert AddPending(buckets, release, s, quantity)[1..] == [];
    } else if buckets[0].release == release {
      AddLotAdds(buckets[0].lots, s, quantity, t);
      assert AddPending(buckets, release, s, quantity)[1..] == buckets[1..];
    } else {
      AddPendingAdds(buckets[1..], release, s, quantity, t);
      assert AddPending(buckets, release, s, quantity)[1..] == AddPending(buckets[1..], release, s, quantity);
    }
  }

  ghost predicate AllAfter(buckets: seq<Bucket>, day: Date) {
    forall i | 0 <= i < |buckets| :: buckets[i].release > day
  }

  lemma {:induction false} AddPendingKeepsAfter(buckets: seq<Bucket>, release: Date, s: Id, quantity: int, day: Date)
    requires AllAfter(buckets, day) && release > day
    ensures AllAfter(AddPending(buckets, release, s, quantity), day)
  {
    if buckets != [] && buckets[0].release != release {
      AddPendingKeepsAfter(buckets[1..], release, s, quantity, day);
    }
  }

  lemma {:induction false} RemovingABucket(buckets: seq<Bucket>, i: nat, s: Id)
    requires i < |buckets|
    ensures PendingOf(buckets, s) == PendingOf(buckets[..i] + buckets[i + 1..], s) + LotsOf(buckets[i].lots, s)
  {
    var rest := buckets[..i] + buckets[i + 1..];
    if i == 0 {
      assert rest == buckets[1..];
    } else {
      RemovingABucket(buckets[1..], i - 1, s);
      assert rest[1..] == buckets[1..][..i - 1] + buckets[1..][i..];
      assert rest[0] == buckets[0];
    }
  }

  /** Everything a release leaves alone. */
  ghost predicate SameHoldings(a: Account, b: Account) {
    a.cash == b.cash && a.receivable == b.receivable && a.positions == b.positions && a.entitlements == b.entitlements
  }

  lemma {:induction false} ReleaseLotsMoves(a: Account, lots: seq<Lot>, s: Id)
    ensures var b := ReleaseLots(a, lots);
            && SameHoldings(a, b) && b.pending == a.pending
            && Get(b.sellable, s) == Get(a.sellable, s) + LotsOf(lots, s)
    decreases |lots|
  {
    if lots != [] {
      ReleaseLotsMoves(
        a.(sellable := Move(a.sellable, lots[0].security, lots[0].quantity),
           ledger := a.ledger + [SellableReleased(lots[0].security, lots[0].quantity)]),
        lots[1..], s);
    }
  }

  /** A release moves exactly the due shares from pending to sellable and leaves nothing due. */
  lemma {:induction false} ReleaseDueMoves(a: Account, day: Date, s: Id)
    ensures var b := ReleaseDue(a, day);
            && SameHoldings(a, b) && AllAfter(b.pending, day)
            && Get(b.sellable, s) + PendingOf(b.pending, s) == Get(a.sellable, s) + PendingOf(a.pending, s)
    decreases |a.pending|
  {
    var due := EarliestDue(a.pending, day);
    if due.Some? {
      var popped := WithoutBucket(a, due.value);
      var lots := a.pending[due.value].lots;
      RemovingABucket(a.pending, due.value, s);
      ReleaseLotsKeepsPending(popped, lots);
      ReleaseLotsMoves(popped, lots, s);
      ReleaseDueMoves(ReleaseLots(popped, lots), day, s);
    }
  }

  /** A purchase without fees when nothing else is waiting to be released. */
  function AfterFreeBuy(a: Account, r: Record, release: Date): Account {
    a.(cash := a.cash - r.gross, positions := Move(a.positions, r.security, r.filled),
       pending := [Bucket(release, [Lot(r.security, r.filled)])], ledger := a.ledger + [TradeFilled(r)])
  }

  lemma AddingToNothing(release: Date, s: Id, quantity: int)
    ensures AddPending([], release, s, quantity) == [Bucket(release, [Lot(s, quantity)])]
  {
  }

  lemma FreeBuyOnAnEmptyQueue(a: Account, r: Record, release: Date)
    requires Sound(a) && a.pending == [] && r.side == BUY && r.fees.Total() == 0.0
    requires 0.0 <= r.gross <= a.cash && r.filled >= 0
    requires Get(a.sellable, r.security) == 0 && Get(a.positions, r.security) >= 0
    ensures ApplyTrade(a, r, Some(release)) == Ok(AfterFreeBuy(a, r, release))
  {
    FreeBuyIsSound(a, r, release);
    hide AddPending, Sound, Move;
    AddingToNothing(release, r.security, r.filled);
    assert a.(cash := a.cash - (r.gross + r.fees.Total()),
              positions := Move(a.positions, r.security, r.filled),
              pending := AddPending(a.pending, release, r.security, r.filled),
              ledger := a.ledger + [TradeFilled(r)]) == AfterFreeBuy(a, r, release);
  }

  lemma FreeBuyIsSound(a: Account, r: Record, release: Date)
    requires Sound(a) && 0.0 <= r.gross <= a.cash && r.filled >= 0
    requires Get(a.sellable, r.security) == 0 && Get(a.positions, r.security) >= 0
    ensures Sound(AfterFreeBuy(a, r, release))
  {
  }
}
