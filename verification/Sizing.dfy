/** Largest affordable lot multiple by binary search, and cash-to-lots flooring. */
module Sizing {
  import opened Base
  import opened Numeric

  /** The search both order sizers run over lot counts, biased to the upper middle. */
  function Bisect(accepts: nat -> bool, low: nat, high: nat): (lots: nat)
    requires low <= high
    ensures low <= lots <= high
    ensures lots == low || accepts(lots)
    decreases high - low
  {
    if low == high then low
    else
      var middle := (low + high + 1) / 2;
      if accepts(middle) then Bisect(accepts, middle, high) else Bisect(accepts, low, middle - 1)
  }

  ghost predicate DownwardClosed(accepts: nat -> bool, high: nat) {
    forall m: nat, n: nat :: m <= n <= high && accepts(n) ==> accepts(m)
  }

  /** On a downward-closed question the search misses nothing above its answer. */
  lemma {:induction false} BisectIsLargest(accepts: nat -> bool, low: nat, high: nat)
    requires low <= high && DownwardClosed(accepts, high)
    ensures forall n: nat :: Bisect(accepts, low, high) < n <= high ==> !accepts(n)
    decreases high - low
  {
    if low < high {
      var middle := (low + high + 1) / 2;
      if accepts(middle) {
        BisectIsLargest(accepts, middle, high);
      } else {
        BisectIsLargest(accepts, low, middle - 1);
      }
    }
  }

  function Gross(quantity: int, price: real): real {
    quantity as real * price
  }

  /** The largest lot multiple within an amount of shares. */
  function FloorToLot(amount: real, lot: int): int
    requires lot > 0
  {
    (amount / lot as real).Floor * lot
  }

  function LotShares(lots: nat, lot: nat): nat {
    lots * lot
  }

  /** Does this many lots, with its fee, fit in the cash? */
  function Affords(lot: nat, price: real, cash: real, fee: nat -> real): nat -> bool {
    (lots: nat) => Gross(LotShares(lots, lot), price) + fee(LotShares(lots, lot)) <= cash
  }

  function MaxLots(desired: int, lot: nat): nat
    requires lot > 0
  {
    Max(0, desired / lot)
  }

  function AffordableQuantity(desired: int, lot: int, price: real, cash: real, fee: nat -> real): nat {
    if desired <= 0 || lot <= 0 || price <= 0.0 || cash <= 0.0 then 0
    else LotShares(Bisect(Affords(lot, price, cash, fee), 0, MaxLots(desired, lot)), lot)
  }

  method ComputeAffordableQuantity(desired: int, lot: int, price: real, cash: real, fee: nat -> real)
    returns (quantity: nat)
    ensures quantity == AffordableQuantity(desired, lot, price, cash, fee)
  {
    if desired <= 0 || lot <= 0 || price <= 0.0 || cash <= 0.0 {
      return 0;
    }
    quantity := SearchLots(desired, lot, price, cash, fee);
  }

  /** The loop shared by `_cash_quantity` and `affordable_quantity`. */
  method SearchLots(desired: int, lot: nat, price: real, cash: real, fee: nat -> real) returns (quantity: nat)
    requires lot > 0
    ensures quantity == LotShares(Bisect(Affords(lot, price, cash, fee), 0, MaxLots(desired, lot)), lot)
  {
    hide Gross, LotShares;
    var high: nat, low: nat := MaxLots(desired, lot), 0;
    var accepts := Affords(lot, price, cash, fee);
    while low < high
      invariant low <= high
      invariant Bisect(accepts, low, high) == Bisect(accepts, 0, MaxLots(desired, lot))
    {
      var middle := (low + high + 1) / 2;
      var wanted := LotShares(middle, lot);
      if Gross(wanted, price) + fee(wanted) <= cash {
        low := middle;
      } else {
        high := middle - 1;
      }
    }
    quantity := LotShares(low, lot);
  }

  ghost predicate FeeGrows(fee: nat -> real) {
    forall m: nat, n: nat :: m <= n ==> fee(m) <= fee(n)
  }

  lemma LotsAreOrdered(m: nat, n: nat, lot: nat, price: real)
    requires m <= n && price >= 0.0
    ensures m * lot <= n * lot
    ensures Gross(m * lot, price) <= Gross(n * lot, price)
  {
    assert (n - m) * lot >= 0;
    MulMonotone((m * lot) as real, (n * lot) as real, price);
  }

  lemma AffordsIsDownwardClosed(lot: nat, price: real, cash: real, fee: nat -> real, high: nat)
    requires FeeGrows(fee) && price >= 0.0
    ensures DownwardClosed(Affords(lot, price, cash, fee), high)
  {
    forall m: nat, n: nat | m <= n <= high && Affords(lot, price, cash, fee)(n)
      ensures Affords(lot, price, cash, fee)(m)
    {
      FewerLotsFit(m, n, lot, price, cash, fee);
    }
  }

  lemma FewerLotsFit(m: nat, n: nat, lot: nat, price: real, cash: real, fee: nat -> real)
    requires FeeGrows(fee) && price >= 0.0 && m <= n && Affords(lot, price, cash, fee)(n)
    ensures Affords(lot, price, cash, fee)(m)
  {
    hide Gross;
    LotsAreOrdered(m, n, lot, price);
    var fewer: nat, more: nat := LotShares(m, lot), LotShares(n, lot);
    assert fee(fewer) <= fee(more);
  }

  /** The planned quantity is a lot multiple within the wish, its cost fits the cash, and no larger
      lot multiple within the wish would fit. */
  lemma AffordableQuantityIsLargest(desired: int, lot: int, price: real, cash: real, fee: nat -> real)
    requires FeeGrows(fee) && lot > 0 && price > 0.0 && cash > 0.0 && desired > 0
    ensures var q := AffordableQuantity(desired, lot, price, cash, fee);
            && q % lot == 0 && q <= desired
            && (q > 0 ==> Gross(q, price) + fee(q) <= cash)
            && forall larger: nat :: q < larger <= desired && larger % lot == 0 ==>
                 Gross(larger, price) + fee(larger) > cash
  {
    hide Gross;
    var high := MaxLots(desired, lot);
    var accepts := Affords(lot, price, cash, fee);
    var lots := Bisect(accepts, 0, high);
    AffordsIsDownwardClosed(lot, price, cash, fee, high);
    BisectIsLargest(accepts, 0, high);
    LotMultiple(lots, lot, desired);
    forall larger: nat | lots * lot < larger <= desired && larger % lot == 0
      ensures Gross(larger, price) + fee(larger) > cash
    {
      var n := larger / lot;
      LotCount(larger, lot, lots, desired);
      assert LotShares(n, lot) == larger && !accepts(n);
    }
  }

  lemma LotMultiple(lots: nat, lot: nat, desired: int)
    requires lot > 0 && lots <= MaxLots(desired, lot) && desired >= 0
    ensures lots * lot % lot == 0 && lots * lot <= desired
  {
    var whole := desired / lot;
    assert (whole - lots) * lot >= 0;
    assert whole * lot <= desired;
    ModuloOfMultiple(lots, lot);
  }

  lemma MultiplesAreApart(m: int, n: int, lot: nat)
    ensures m < n ==> m * lot + lot <= n * lot
  {
    ProductIsNonnegative(n - m - 1, lot);
    Distributes(n, m, lot);
  }

  lemma ProductIsNonnegative(count: int, lot: nat)
    ensures count >= 0 ==> count * lot >= 0
  {
  }

  lemma Distributes(n: int, m: int, lot: int)
    ensures (n - m - 1) * lot == n * lot - m * lot - lot
  {
  }

  lemma DivisionIsUnique(x: int, lot: nat, quotient: int, rest: nat)
    requires x == quotient * lot + rest && rest < lot
    ensures x / lot == quotient && x % lot == rest
  {
    assert x == x / lot * lot + x % lot;
    MultiplesAreApart(x / lot, quotient, lot);
    MultiplesAreApart(quotient, x / lot, lot);
  }

  lemma ModuloOfMultiple(lots: int, lot: nat)
    requires lot > 0
    ensures lots * lot % lot == 0 && lots * lot / lot == lots
  {
    DivisionIsUnique(lots * lot, lot, lots, 0);
  }

  lemma LotCount(larger: nat, lot: nat, lots: nat, desired: int)
    requires lot > 0 && larger % lot == 0 && lots * lot < larger <= desired
    ensures larger == larger / lot * lot && lots < larger / lot <= MaxLots(desired, lot)
  {
    assert larger == larger / lot * lot + larger % lot;
    assert desired == desired / lot * lot + desired % lot;
    MultiplesAreApart(larger / lot, lots, lot);
    MultiplesAreApart(desired / lot, larger / lot, lot);
  }

  lemma FloorToLotIsExact(amount: real, lot: int)
    requires amount >= 0.0 && lot > 0
    ensures 0 <= FloorToLot(amount, lot) && FloorToLot(amount, lot) % lot == 0
    ensures FloorToLot(amount, lot) as real <= amount < (FloorToLot(amount, lot) + lot) as real
  {
    var n := (amount / lot as real).Floor;
    QuotientIsMonotone(0.0, amount, lot as real);
    assert n >= 0;
    assert n * lot >= 0;
    TickFloor(amount, lot as real);
    IntegerTicks(n, lot);
    IntegerTicks(n + 1, lot);
    ModuloOfMultiple(n, lot);
  }

  lemma IntegerTicks(n: int, lot: int)
    ensures Ticks(n, lot as real) == (n * lot) as real
  {
  }

  lemma FloorToLotIsMonotone(x: real, y: real, lot: int)
    requires x <= y && lot > 0
    ensures FloorToLot(x, lot) <= FloorToLot(y, lot)
  {
    QuotientIsMonotone(x, y, lot as real);
    MultiplesAreApart((y / lot as real).Floor, (x / lot as real).Floor, lot);
  }

  lemma WholeLotsStay(count: int, lot: int)
    requires lot > 0
    ensures FloorToLot((count * lot) as real, lot) == count * lot
  {
    IntegerTicks(count, lot);
    FloorOfInteger(count, lot as real);
  }
}
