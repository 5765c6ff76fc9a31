/** Why the progress of tiered exits needs whole-lot fills: an account that can sell 250 of its 1000 shares,
    and what the first tier then does. */
module OddFills {
  import opened Base
  import opened Numeric
  import opened Sizing
  import opened FeeSchedule
  import opened Execution
  import opened Accounts
  import opened Reducer
  import opened StagedDrawdown
  import opened Cycles

  /** A schedule without fees. */
  const FREE := FeeModel(FeeRates(0.0, 0.0, 0.0, 0.0), FeeRates(0.0, 0.0, 0.0, 0.0), [])

  // ----- an account with 1000 shares, 250 of them sellable

  const SMALL: EventId := 1
  const LARGE: EventId := 2

  function Right(s: Id, stock: int): Entitlement {
    Entitlement(s, 0.0, stock, 0)
  }

  function Bought200(s: Id): Record {
    Record(1, s, BUY, 200, 200, 10.0, 2000.0, Free(), true, None)
  }

  /** What the account writes when it buys 200 shares at 10, receives and lists a distribution of 50 on them, and
      receives one of 750 that is not yet listed. */
  function OddLedger(s: Id): seq<Event> {
    [CashInitialized(2000.0), TradeFilled(Bought200(s)), EntitlementRecorded(SMALL, Right(s, 50)),
     SellableReleased(s, 200), CashDividendDeclared(SMALL, 0.0), StockDistributionApplied(SMALL, s, 50),
     SellableReleased(s, 50), EntitlementRecorded(LARGE, Right(s, 750)),
     CashDividendDeclared(LARGE, 0.0), StockDistributionApplied(LARGE, s, 750)]
  }

  /** The account after the first `n` events of that ledger. */
  function OddAccount(s: Id, n: nat, shares: int, sellable: int, pending: seq<Bucket>): Account
    requires n <= |OddLedger(s)|
  {
    Account(if n < 2 then 2000.0 else 0.0, 0.0,
            if n < 2 then map[] else map[s := shares],
            if n < 4 then map[] else map[s := sellable],
            pending,
            if n < 3 then map[] else if n < 8 then map[SMALL := Right(s, 50)]
            else map[SMALL := Right(s, 50), LARGE := Right(s, 750)],
            OddLedger(s)[..n])
  }

  function Waiting200(s: Id): seq<Bucket> {
    [Bucket(2, [Lot(s, 200)])]
  }

  /** Every one of its transitions is one the account takes. */
  lemma OddLedgerIsWritten(s: Id)
    ensures Open(2000.0, map[], map[]) == Ok(OddAccount(s, 1, 0, 0, []))
    ensures Accounts.ApplyTrade(OddAccount(s, 1, 0, 0, []), Bought200(s), Some(2))
            == Ok(OddAccount(s, 2, 200, 0, Waiting200(s)))
    ensures Accounts.RecordEntitlement(OddAccount(s, 2, 200, 0, Waiting200(s)), SMALL, Right(s, 50))
            == Ok(OddAccount(s, 3, 200, 0, Waiting200(s)))
    ensures Accounts.ReleaseSellable(OddAccount(s, 3, 200, 0, Waiting200(s)), 2) == Ok(OddAccount(s, 4, 200, 200, []))
    ensures var before := OddAccount(s, 4, 200, 200, []);
            SMALL in before.entitlements && ApplyExDate(before, SMALL, false) == Ok(OddAccount(s, 6, 250, 200, []))
    ensures var before := OddAccount(s, 6, 250, 200, []);
            SMALL in before.entitlements && ReleaseStock(before, SMALL, false) == Ok(OddAccount(s, 7, 250, 250, []))
    ensures Accounts.RecordEntitlement(OddAccount(s, 7, 250, 250, []), LARGE, Right(s, 750))
            == Ok(OddAccount(s, 8, 250, 250, []))
    ensures var before := OddAccount(s, 8, 250, 250, []);
            LARGE in before.entitlements && ApplyExDate(before, LARGE, false) == Ok(OddAccount(s, 10, 1000, 250, []))
  {
    hide OddAccount, Accounts.ApplyTrade, Accounts.RecordEntitlement, Accounts.ReleaseSellable, ApplyExDate;
    OddOpens(s);
    OddBuys(s);
    OddIsEntitled(s);
    OddIsReleased(s);
    OddIsDistributed(s);
    OddIsListed(s);
    OddIsEntitledAgain(s);
    OddIsDistributedAgain(s);
  }

  lemma OddOpens(s: Id)
    ensures Open(2000.0, map[], map[]) == Ok(OddAccount(s, 1, 0, 0, []))
  {
    assert OddLedger(s)[..1] == [CashInitialized(2000.0)];
  }

  lemma OddIsEntitled(s: Id)
    ensures Accounts.RecordEntitlement(OddAccount(s, 2, 200, 0, Waiting200(s)), SMALL, Right(s, 50))
            == Ok(OddAccount(s, 3, 200, 0, Waiting200(s)))
  {
    Grow(OddLedger(s), 2);
    assert OddLedger(s)[2] == EntitlementRecorded(SMALL, Right(s, 50));
    hide OddLedger;
    assert map[][SMALL := Right(s, 50)] == map[SMALL := Right(s, 50)];
  }

  lemma OddIsEntitledAgain(s: Id)
    ensures Accounts.RecordEntitlement(OddAccount(s, 7, 250, 250, []), LARGE, Right(s, 750))
            == Ok(OddAccount(s, 8, 250, 250, []))
  {
    Grow(OddLedger(s), 7);
    assert OddLedger(s)[7] == EntitlementRecorded(LARGE, Right(s, 750));
    hide OddLedger;
    assert map[SMALL := Right(s, 50)][LARGE := Right(s, 750)] == map[SMALL := Right(s, 50), LARGE := Right(s, 750)];
  }

  lemma OddBuys(s: Id)
    ensures Accounts.ApplyTrade(OddAccount(s, 1, 0, 0, []), Bought200(s), Some(2))
            == Ok(OddAccount(s, 2, 200, 0, Waiting200(s)))
  {
    Grow(OddLedger(s), 1);
    assert OddLedger(s)[1] == TradeFilled(Bought200(s));
    hide OddLedger;
    var before := OddAccount(s, 1, 0, 0, []);
    FreeBuyOnAnEmptyQueue(before, Bought200(s), 2);
    assert Move(map[], s, 200) == map[s := 200];
  }

  lemma OnlyBucketIsReleased(a: Account, s: Id)
    requires a.pending == Waiting200(s)
    ensures ReleaseDue(a, 2)
            == a.(pending := [], sellable := Move(a.sellable, s, 200), ledger := a.ledger + [SellableReleased(s, 200)])
  {
    assert a.pending[1..] == [] && EarliestDue([], 2) == None;
    var popped := WithoutBucket(a, 0);
    assert popped.pending == [];
    var lots := [Lot(s, 200)];
    assert lots[1..] == [];
    var once := popped.(sellable := Move(a.sellable, s, 200), ledger := a.ledger + [SellableReleased(s, 200)]);
    assert ReleaseLots(once, []) == once;
  }

  lemma OddIsReleased(s: Id)
    ensures Accounts.ReleaseSellable(OddAccount(s, 3, 200, 0, Waiting200(s)), 2) == Ok(OddAccount(s, 4, 200, 200, []))
  {
    Grow(OddLedger(s), 3);
    OnlyBucketIsReleased(OddAccount(s, 3, 200, 0, Waiting200(s)), s);
    assert map[][s := 200] == map[s := 200];
  }

  lemma OddIsDistributed(s: Id)
    ensures var before := OddAccount(s, 4, 200, 200, []);
            SMALL in before.entitlements && ApplyExDate(before, SMALL, false) == Ok(OddAccount(s, 6, 250, 200, []))
  {
    var before := OddAccount(s, 4, 200, 200, []);
    assert OddLedger(s)[..6]
        == before.ledger + [CashDividendDeclared(SMALL, 0.0), StockDistributionApplied(SMALL, s, 50)];
    hide OddLedger;
    assert Move(map[s := 200], s, 50) == map[s := 250];
  }

  lemma OddIsListed(s: Id)
    ensures var before := OddAccount(s, 6, 250, 200, []);
            SMALL in before.entitlements && ReleaseStock(before, SMALL, false) == Ok(OddAccount(s, 7, 250, 250, []))
  {
    Grow(OddLedger(s), 6);
    assert OddLedger(s)[6] == SellableReleased(s, 50);
    hide OddLedger;
    assert Move(map[s := 200], s, 50) == map[s := 250];
  }

  lemma OddIsDistributedAgain(s: Id)
    ensures var before := OddAccount(s, 8, 250, 250, []);
            LARGE in before.entitlements && ApplyExDate(before, LARGE, false) == Ok(OddAccount(s, 10, 1000, 250, []))
  {
    var before := OddAccount(s, 8, 250, 250, []);
    assert OddLedger(s)[..10]
        == before.ledger + [CashDividendDeclared(LARGE, 0.0), StockDistributionApplied(LARGE, s, 750)];
    hide OddLedger;
    assert Move(map[s := 250], s, 750) == map[s := 1000];
  }

  // ----- what the strategy sees

  /** 200 shares bought at 10 became 250, then 1000; nothing has been sold. */
  function OddPosition(s: Id): PositionState {
    Adjusted(Adjusted(Bought(FLAT, Bought200(s)), 50), 750)
  }

  lemma OddLedgerFolds(s: Id)
    ensures At(2000.0, OddLedger(s), s, OddPosition(s), Some(1), 2000.0)
  {
    var l := OddLedger(s);
    var p := Bought(FLAT, Bought200(s));
    assert Tracked(FLAT) && Tracked(p);
    AdjustedIsTracked(p, 50);
    NothingYet(2000.0, s);
    assert l[1] == TradeFilled(Bought200(s)) && l[5] == StockDistributionApplied(SMALL, s, 50);
    assert l[9] == StockDistributionApplied(LARGE, s, 750) && l[0] == CashInitialized(2000.0);
    OddQuiet(s, l);
    hide At, OddLedger, Tracked, Adjusted, Bought;
    Grow(l, 0);
    QuietEvent(2000.0, l[..0], s, FLAT, None, 0.0, l[0]);
    Grow(l, 1);
    FillEvent(2000.0, l[..1], s, FLAT, None, 0.0, Bought200(s));
    Grow(l, 2);
    QuietEvent(2000.0, l[..2], s, p, Some(1), 2000.0, l[2]);
    Grow(l, 3);
    QuietEvent(2000.0, l[..3], s, p, Some(1), 2000.0, l[3]);
    Grow(l, 4);
    QuietEvent(2000.0, l[..4], s, p, Some(1), 2000.0, l[4]);
    Grow(l, 5);
    DistributionEvent(2000.0, l[..5], s, p, Some(1), 2000.0, SMALL, 50);
    Grow(l, 6);
    QuietEvent(2000.0, l[..6], s, Adjusted(p, 50), Some(1), 2000.0, l[6]);
    Grow(l, 7);
    QuietEvent(2000.0, l[..7], s, Adjusted(p, 50), Some(1), 2000.0, l[7]);
    Grow(l, 8);
    QuietEvent(2000.0, l[..8], s, Adjusted(p, 50), Some(1), 2000.0, l[8]);
    Grow(l, 9);
    DistributionEvent(2000.0, l[..9], s, Adjusted(p, 50), Some(1), 2000.0, LARGE, 750);
    assert l[..10] == l;
  }

  lemma OddQuiet(s: Id, l: seq<Event>)
    requires l == OddLedger(s)
    ensures |l| == 10
    ensures l[2].EntitlementRecorded? && l[3].SellableReleased? && l[4].CashDividendDeclared?
    ensures l[6].SellableReleased? && l[7].EntitlementRecorded? && l[8].CashDividendDeclared?
  {
  }

  // ----- the odd fill

  /** Three tiers at 10, 20 and 30 percent profit, selling 30, 30 and 40 percent. */
  function ThreeTiers(s: Id): Parameters {
    Parameters(s, 2, 0.1, 0.1, 1, 0.1, 0.1, 1.0, 0.1, 0.5, true, [0.1, 0.2, 0.3], [0.3, 0.3, 0.4], false, 2, 0, true)
  }

  lemma ThreeTiersAreValid(s: Id)
    ensures ValidParameters(ThreeTiers(s))
    ensures ReachedTier(ThreeTiers(s).levels, 0.15) == 1 && Sum(ThreeTiers(s).fractions[..1]) == 0.3
  {
    var f := ThreeTiers(s).fractions;
    assert f[..2][..1] == f[..1] && f[..1][..0] == [];
    assert f[..1][0] == 0.3 && f[..2][1] == 0.3;
    assert Sum(f[..1]) == 0.3;
    assert Sum(f[..2]) == 0.6;
    assert Sum(f) == 1.0;
    var l := ThreeTiers(s).levels;
    assert l[..2][..1] == l[..1] && l[..1][0] == 0.1;
    assert ReachedTier(l[..1], 0.15) == 1;
  }

  const QUIET_DAY := Facts(A_SHARE, 2.3, 2.3, 2.3, 2.5, 2.1, 1000000, 0.1, false, false, false)

  /** Of the 300 shares the first tier orders, 250 are sellable, and the simulator sells those 250. */
  lemma OddFillHappens(s: Id, day: Date)
    ensures var out := Execute(FREE, Instruction(s, SELL, 300, 100), QUIET_DAY, day, 0.0, 1000, 250, 1.0, 0.0);
            out.Ok? && out.value.record.Some? && out.value.record.value.filled == 250
            && out.value.record.value.side == SELL
  {
    assert Price(SELL, QUIET_DAY, 0.0) == Some(2.3) by {
      QuietPrice();
    }
    assert (1000000 as real * 1.0).Floor == 1000000;
    assert Capacity(Instruction(s, SELL, 300, 100), QUIET_DAY, 1000, 1.0) == 1000000;
    assert Gross(250, 2.3) == 575.0;
    hide Price, Split, Gross, Capacity;
  }

  lemma QuietPrice()
    ensures Price(SELL, QUIET_DAY, 0.0) == Some(2.3)
  {
    FloorOfInteger(23, 0.1);
    assert 2.3 / 0.1 == 23.0;
    assert QuantizePrice(2.3 * (1.0 + -1.0 * 0.0 / 10000.0), 0.1) == 2.3;
    assert Clamped(SELL, QUIET_DAY, 0.0) == 2.3;
    assert Ceiling(23.0) == 23;
  }

  lemma OddPositionIs(s: Id)
    ensures var p := OddPosition(s);
            && p.quantity == 1000 && p.basis == 2000.0 && p.lastSide == Some(BUY)
            && p.exitBase == None && p.exitSold == 0.0
  {
  }

  /** Odd-lot fills break the progress. With 1000 shares, 250 of them sellable, lots of 100 and a 30 percent first
      tier, the first order is for 300; after the simulator has sold the 250, the same tier sells the whole
      position. The close of 2.3 is 15 percent above cost before and after. */
  lemma OddFillCounterexample(s: Id, day: Date)
    ensures var v, a := ThreeTiers(s), OddAccount(s, 10, 1000, 250, []);
            var p := Tracking(2000.0, a.ledger, s);
            var r := Execute(FREE, Instruction(s, SELL, 300, 100), QUIET_DAY, day, a.cash, Get(a.positions, s),
                             Get(a.sellable, s), 1.0, 0.0).value.record.value;
            && ValidParameters(v)
            && p.basis > 0.0 && SellSizing(v, p, 2.3, 100) == Ok(Some(FixedQuantity(300)))
            && r.filled == 250
            && Sold(p, r).quantity == 750 && Sold(p, r).basis > 0.0
            && SellSizing(v, Sold(p, r), 2.3, 100) == Ok(Some(FullPosition))
  {
    OddFillHappens(s, day);
    OddLedgerFolds(s);
    OddPositionIs(s);
    assert OddLedger(s)[..10] == OddLedger(s);
    hide At, Execute, OddLedger, OddPosition, ThreeTiers, SellSizing, ValidParameters, Sold;
    var p := OddPosition(s);
    var r := Execute(FREE, Instruction(s, SELL, 300, 100), QUIET_DAY, day, 0.0, 1000, 250, 1.0, 0.0).value.record.value;
    OddTracking(s);
    ThreeTiersAreValid(s);
    FirstTierOrders(s, p);
    OddSaleLeaves(p, r);
    SameTierSellsAll(s, Sold(p, r));
  }

  lemma OddTracking(s: Id)
    requires At(2000.0, OddLedger(s), s, OddPosition(s), Some(1), 2000.0)
    ensures Tracking(2000.0, OddLedger(s), s) == OddPosition(s)
  {
  }

  lemma FirstTierOrders(s: Id, p: PositionState)
    requires p.quantity == 1000 && p.basis == 2000.0 && p.lastSide == Some(BUY)
    requires p.exitBase == None && p.exitSold == 0.0 && ValidParameters(ThreeTiers(s))
    ensures SellSizing(ThreeTiers(s), p, 2.3, 100) == Ok(Some(FixedQuantity(300)))
  {
    ThreeTiersAreValid(s);
    ThreeTiersAreTiered(s);
    TargetOfThousand();
    assert Profit(2.3, p) == 0.15;
    hide ReachedTier, Sum, ThreeTiers, Profit, ValidParameters;
    assert ExitBase(p) == 1000.0;
  }

  lemma OddSaleLeaves(p: PositionState, r: Record)
    requires p.quantity == 1000 && p.basis == 2000.0 && p.lastSide == Some(BUY)
    requires p.exitBase == None && p.exitSold == 0.0 && r.filled == 250
    ensures var q := Sold(p, r);
            && q.quantity == 750 && q.basis == 1500.0 && q.exitBase == Some(1000.0) && q.exitSold == 250.0
  {
  }

  lemma SameTierSellsAll(s: Id, q: PositionState)
    requires q.quantity == 750 && q.basis == 1500.0 && q.exitBase == Some(1000.0) && q.exitSold == 250.0
    requires ValidParameters(ThreeTiers(s))
    ensures SellSizing(ThreeTiers(s), q, 2.3, 100) == Ok(Some(FullPosition))
  {
    ThreeTiersAreValid(s);
    ThreeTiersAreTiered(s);
    TargetOfThousand();
    assert Profit(2.3, q) == 0.15;
    hide ReachedTier, Sum, ThreeTiers, Profit, ValidParameters;
    assert ExitBase(q) == 1000.0;
  }

  lemma ThreeTiersAreTiered(s: Id)
    ensures ThreeTiers(s).tiered
  {
  }

  lemma TargetOfThousand()
    ensures Portion(1000.0, 0.3) == 300.0 && FloorToLot(300.0, 100) == 300
  {
    FloorOfInteger(3, 100.0);
    assert Ticks(3, 100.0) == 300.0;
  }
}
