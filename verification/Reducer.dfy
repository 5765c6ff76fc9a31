/** Event-sourced strategy state: the only view of the account a stateful strategy gets. */
module Reducer {
  import opened Base
  import opened Numeric
  import opened Execution
  import opened Accounts

  datatype PositionState = PositionState(
    quantity: int, basis: real, lastSide: Option<Side>, lastDate: Option<Date>,
    lastQuantity: int, lastPrice: Option<real>, lastBuyPrice: Option<real>,
    cumulativeBuys: real, exitBase: Option<real>, exitSold: real)

  const FLAT := PositionState(0, 0.0, None, None, 0, None, None, 0.0, None, 0.0)

  /** Positions are keyed by security; the stored tuple is this map in key order. */
  datatype Snapshot = Snapshot(capital: real, asOf: Option<Date>, positions: map<Id, PositionState>)

  const INVALID := "STRATEGY_STATE_INVALID"

  predicate ExitConsistent(p: PositionState) {
    && p.exitSold >= 0.0
    && (p.exitBase.None? ==> p.exitSold == 0.0)
    && (p.exitBase.Some? ==> p.exitBase.value > 0.0 && p.exitBase.value - p.exitSold == p.quantity as real)
  }

  function PositionOf(state: Snapshot, s: Id): PositionState {
    if s in state.positions then state.positions[s] else FLAT
  }

  function Initial(capital: real): Result<Snapshot> {
    if capital < 0.0 then Err(INVALID) else Ok(Snapshot(capital, None, map[]))
  }

  function Bought(current: PositionState, r: Record): PositionState {
    current.(
      quantity := current.quantity + r.filled,
      basis := current.basis + r.gross + r.fees.Total(),
      lastSide := Some(BUY), lastDate := Some(r.date), lastQuantity := r.filled,
      lastPrice := Some(r.price), lastBuyPrice := Some(r.price),
      exitBase := None, exitSold := 0.0,
      cumulativeBuys := if current.quantity == 0 then r.gross else current.cumulativeBuys + r.gross)
  }

  function BasisAfterSell(current: PositionState, filled: int): real {
    if current.quantity == filled || current.quantity == 0 then 0.0
    else current.basis - current.basis / current.quantity as real * filled as real
  }

  function ExitBaseAfterSell(current: PositionState): Option<real> {
    if current.exitBase == None && current.lastSide != Some(SELL) then Some(current.quantity as real)
    else current.exitBase
  }

  function Sold(current: PositionState, r: Record): PositionState {
    var next := current.quantity - r.filled;
    var base := ExitBaseAfterSell(current);
    current.(
      quantity := next,
      basis := BasisAfterSell(current, r.filled),
      lastSide := Some(SELL), lastDate := Some(r.date), lastQuantity := r.filled,
      lastPrice := Some(r.price),
      exitBase := if next == 0 then None else base,
      exitSold := if next == 0 || base == None then 0.0 else current.exitSold + r.filled as real)
  }

  function Stored(state: Snapshot, s: Id, p: PositionState, asOf: Option<Date>): Result<Snapshot> {
    if ExitConsistent(p) then Ok(state.(positions := state.positions[s := p], asOf := asOf)) else Err(INVALID)
  }

  function ApplyFill(state: Snapshot, r: Record): Result<Snapshot> {
    if state.asOf.Some? && r.date < state.asOf.value then Err(INVALID)
    else if r.filled <= 0 then Ok(state)
    else
      var current := PositionOf(state, r.security);
      if r.side == SELL && r.filled > current.quantity then Err(INVALID)
      else Stored(state, r.security, if r.side == BUY then Bought(current, r) else Sold(current, r), Some(r.date))
  }

  function Rescaled(x: real, to: int, from: int): real
    requires from != 0
  {
    x * to as real / from as real
  }

  /** A corporate action rescales the sold part in proportion and keeps base - sold = quantity. */
  function Adjusted(current: PositionState, quantity: int): PositionState {
    var next := current.quantity + quantity;
    var rescale := current.exitBase.Some? && current.quantity > 0;
    var sold :=
      if rescale then QuantizeTrillionth(Rescaled(current.exitSold, next, current.quantity))
      else current.exitSold;
    current.(
      quantity := next,
      lastBuyPrice :=
        if current.lastBuyPrice.Some? && current.quantity > 0 && next > 0 then
          Some(Rescaled(current.lastBuyPrice.value, current.quantity, next))
        else current.lastBuyPrice,
      exitBase := if rescale then Some(next as real + sold) else current.exitBase,
      exitSold := sold)
  }

  function ApplyAdjustment(state: Snapshot, s: Id, quantity: int): Result<Snapshot> {
    if quantity < 0 then Err(INVALID)
    else Stored(state, s, Adjusted(PositionOf(state, s), quantity), state.asOf)
  }

  function Apply(state: Snapshot, event: Event): Result<Snapshot> {
    match event
    case CashInitialized(amount) => if amount != state.capital then Err(INVALID) else Ok(state)
    case TradeFilled(r) => ApplyFill(state, r)
    case StockDistributionApplied(_, s, quantity) => ApplyAdjustment(state, s, quantity)
    case SplitApplied(_, s, quantity, _) => ApplyAdjustment(state, s, quantity)
    case ValuationRecorded(date, _) => Ok(state.(asOf := Some(date)))
    case _ => Ok(state)
  }

  function Fold(state: Snapshot, events: seq<Event>): Result<Snapshot> {
    if events == [] then Ok(state)
    else
      var before :- Fold(state, events[..|events| - 1]);
      Apply(before, events[|events| - 1])
  }

  /** The full replay of a ledger, the reference the incremental fold is compared with. */
  function Replay(capital: real, events: seq<Event>): Result<Snapshot> {
    var state :- Initial(capital);
    Fold(state, events)
  }

  lemma FoldOne(state: Snapshot, events: seq<Event>, event: Event)
    ensures Fold(state, events + [event])
            == if Fold(state, events).Ok? then Apply(Fold(state, events).value, event)
              else Err(Fold(state, events).code)
  {
    assert (events + [event])[..|events|] == events;
  }

  /** Folding chunk by chunk from a cursor is folding the whole. */
  lemma {:induction false} FoldInChunks(state: Snapshot, first: seq<Event>, second: seq<Event>)
    ensures Fold(state, first + second)
            == if Fold(state, first).Ok? then Fold(Fold(state, first).value, second) else Err(Fold(state, first).code)
    decreases |second|
  {
    if second == [] {
      assert first + second == first;
    } else {
      var n := |second| - 1;
      FoldInChunks(state, first, second[..n]);
      assert first + second == (first + second[..n]) + [second[n]];
      FoldOne(state, first + second[..n], second[n]);
    }
  }

  /** Head-first form of the fold, the shape of the reducer's loops. */
  method FoldEvents(state: Snapshot, events: seq<Event>) returns (r: Result<Snapshot>)
    ensures r == Fold(state, events)
  {
    hide Apply;
    var current := state;
    for i := 0 to |events|
      invariant Fold(state, events[..i]) == Ok(current)
    {
      FoldOne(state, events[..i], events[i]);
      assert events[..i + 1] == events[..i] + [events[i]];
      var next := Apply(current, events[i]);
      if next.Err? {
        FoldInChunks(state, events[..i + 1], events[i + 1..]);
        assert events == events[..i + 1] + events[i + 1..];
        return next;
      }
      current := next.value;
    }
    assert events[..|events|] == events;
    return Ok(current);
  }

  /** What holds of every position the reducer stores along an account's ledger. */
  ghost predicate Tracked(p: PositionState) {
    && ExitConsistent(p)
    && p.quantity >= 0
    && (p.exitBase.Some? ==> p.quantity > 0)
  }

  lemma BoughtIsTracked(p: PositionState, r: Record)
    requires Tracked(p) && r.filled > 0
    ensures Tracked(Bought(p, r)) && Bought(p, r).quantity == p.quantity + r.filled
  {
  }

  lemma SoldIsTracked(p: PositionState, r: Record)
    requires Tracked(p) && 0 < r.filled <= p.quantity
    ensures Tracked(Sold(p, r)) && Sold(p, r).quantity == p.quantity - r.filled
  {
  }

  lemma RescaledSoldIsNonnegative(sold: real, next: int, quantity: int)
    requires sold >= 0.0 && next >= 0 && quantity > 0
    ensures QuantizeTrillionth(Rescaled(sold, next, quantity)) >= 0.0
  {
    MulMonotone(0.0, sold, next as real);
    assert Rescaled(sold, next, quantity) >= 0.0;
  }

  lemma AdjustedIsTracked(p: PositionState, quantity: int)
    requires Tracked(p) && quantity >= 0
    ensures Tracked(Adjusted(p, quantity)) && Adjusted(p, quantity).quantity == p.quantity + quantity
  {
    if p.exitBase.Some? {
      RescaledSoldIsNonnegative(p.exitSold, p.quantity + quantity, p.quantity);
    }
  }
}
