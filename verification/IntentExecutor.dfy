/** Turns the intents of one decision into orders, sizes them, and applies the fills. */
module IntentExecutor {
  import opened Base
  import opened Numeric
  import opened FeeSchedule
  import opened Sizing
  import opened Execution
  import opened Accounts
  import opened SimulatedAccounts
  import opened StagedDrawdown

  type Positive = n: int | n > 0 witness 1

  datatype Row = Row(
    asset: Asset, open: Option<real>, high: Option<real>, low: Option<real>,
    upLimit: Option<real>, downLimit: Option<real>, valuationClose: Option<real>, tick: Option<real>,
    volume: nat, suspended: bool, limitUpLocked: bool, limitDownLocked: bool,
    buyLot: Positive, sellLot: Positive)

  /** What the executor reads: rows by date and security, the calendar, fees and assumptions. */
  datatype Market = Market(
    rows: (Date, Id) -> Option<Row>, nextDay: Date -> Option<Date>,
    fees: FeeModel, participation: real, slippage: real)

  datatype UnfilledRecord = UnfilledRecord(
    security: Id, side: Side, requested: int, filled: int, unfilled: int, reason: Reason)

  datatype Fills = Fills(account: Account, trades: seq<(Record, Asset)>, unfilled: seq<UnfilledRecord>)

  /** The turnover base is positive, or the executor has raised. */
  type PositiveValue = r: real | r > 0.0 witness 1.0

  datatype Executed = Executed(fills: Fills, turnover: real, base: PositiveValue)

  const MISSING := "BACKTEST_VALUATION_MISSING"

  function Decimal(value: Option<real>, fallback: Option<real>): Result<real> {
    var chosen := if value.Some? then value else fallback;
    if chosen.None? || chosen.value <= 0.0 then Err(MISSING) else Ok(chosen.value)
  }

  function ReferencePrice(row: Row): Result<real> {
    Decimal(row.open, row.valuationClose)
  }

  function ExecutionFacts(row: Row): (facts: Result<Facts>)
    ensures facts.Ok? ==> ValidFacts(facts.value) && facts.value.asset == row.asset
  {
    var open :- Decimal(row.open, row.valuationClose);
    var high :- Decimal(row.high, row.valuationClose);
    var low :- Decimal(row.low, row.valuationClose);
    var up :- Decimal(row.upLimit, if row.suspended then row.valuationClose else row.high);
    var down :- Decimal(row.downLimit, if row.suspended then row.valuationClose else row.low);
    var tick :- Decimal(row.tick, None);
    Ok(Facts(row.asset, open, high, low, up, down, row.volume, tick,
             row.suspended, row.limitUpLocked, row.limitDownLocked))
  }

  /** The most whole shares an amount pays for. */
  function SharesFor(amount: real, price: real): int
    requires price > 0.0
  {
    (amount / price).Floor
  }

  function PartOf(current: int, share: real): int {
    (current as real * share).Floor
  }

  function WholeLots(quantity: int, lot: Positive): int {
    quantity / lot * lot
  }

  /** Shares to sell and whether the sizing empties the position (then odd lots are allowed). */
  function SellQuantity(sizing: StagedDrawdown.Sizing, current: int, price: real): Result<(int, bool)>
    requires price > 0.0
  {
    match sizing
    case FullPosition => Ok((current, true))
    case FixedQuantity(quantity) => Ok((Min(current, quantity), quantity >= current))
    case CurrentPositionFraction(share) =>
      var raw := PartOf(current, share);
      Ok((raw, raw == current))
    case FixedNotional(amount) =>
      var raw := SharesFor(amount, price);
      Ok((Min(current, raw), raw >= current))
    case InitialCapitalFraction(_) => Err("STRATEGY_INTENT_INVALID")
  }

  function BudgetPrice(facts: Facts, reference: real, slippage: real): real
    requires facts.tick > 0.0
  {
    var modeled := Price(BUY, facts, slippage);
    if modeled.Some? && modeled.value != 0.0 then modeled.value else reference
  }

  function Size(
    intent: Intent, current: int, capital: real, row: Row, reference: real, facts: Facts, slippage: real)
    : Result<Option<Instruction>>
    requires facts.tick > 0.0 && facts.open > 0.0 && reference > 0.0
  {
    if intent.side == BUY then
      var notional :- BuyNotional(intent.sizing, capital);
      var price := BudgetPrice(facts, reference, slippage);
      assert price > 0.0 by { BuyPriceIsExact(facts, slippage); }
      var requested := WholeLots(SharesFor(notional, price), row.buyLot);
      Ok(if requested <= 0 then None else Some(Instruction(intent.security, BUY, requested, row.buyLot)))
    else
      var sell :- SellQuantity(intent.sizing, current, reference);
      var requested := if sell.1 then sell.0 else WholeLots(sell.0, row.sellLot);
      Ok(if requested <= 0 then None else Some(Instruction(intent.security, SELL, requested, row.sellLot)))
  }

  /** Bought shares become sellable on the next trading day; a calendar that ends gives a week. */
  function ReleaseDate(m: Market, day: Date, side: Side): Option<Date> {
    if side == SELL then None
    else
      var next := m.nextDay(day);
      if next.Some? then next else Some(day + 7)
  }

  function Unfulfilled(instruction: Instruction, filled: int, out: Outcome): seq<UnfilledRecord> {
    if out.reason.Some? && out.unfilled > 0 then
      [UnfilledRecord(instruction.security, instruction.side, instruction.requested, filled, out.unfilled,
                      out.reason.value)]
    else []
  }

  function ExecuteInstruction(
    m: Market, a: Account, day: Date, instruction: Instruction, row: Row, facts: Facts): Result<Fills>
    requires facts.tick > 0.0 && instruction.lot > 0
  {
    if row.open.None? && !row.suspended then
      Ok(Fills(a, [], [UnfilledRecord(instruction.security, instruction.side, instruction.requested, 0,
                                      instruction.requested, NO_EXECUTION_PRICE)]))
    else
      var s := instruction.security;
      var out :- Execute(m.fees, instruction, facts, day, a.cash, Get(a.positions, s), Get(a.sellable, s),
                         m.participation, m.slippage);
      if out.record.None? then Ok(Fills(a, [], Unfulfilled(instruction, 0, out)))
      else
        var r := out.record.value;
        var next :- Accounts.ApplyTrade(a, r, ReleaseDate(m, day, r.side));
        Ok(Fills(next, [(r, row.asset)], Unfulfilled(instruction, r.filled, out)))
  }

  /** A sized order with the row and facts it will be placed on. */
  datatype Placing = Placing(instruction: Instruction, row: Row, facts: Facts, reference: real)

  function Prepare(m: Market, current: int, capital: real, day: Date, intent: Intent): (r: Result<Option<Placing>>)
    ensures r.Ok? && r.value.Some? ==> r.value.value.facts.tick > 0.0 && r.value.value.instruction.lot > 0
  {
    var found := m.rows(day, intent.security);
    if found.None? then Err(MISSING)
    else
      var row := found.value;
      var reference :- ReferencePrice(row);
      var facts :- ExecutionFacts(row);
      var sized :- Size(intent, current, capital, row, reference, facts, m.slippage);
      Ok(if sized.None? then None else Some(Placing(sized.value, row, facts, reference)))
  }

  function StepIntent(m: Market, a: Account, capital: real, day: Date, intent: Intent): Result<Fills> {
    var placing :- Prepare(m, Get(a.positions, intent.security), capital, day, intent);
    if placing.None? then Ok(Fills(a, [], []))
    else ExecuteInstruction(m, a, day, placing.value.instruction, placing.value.row, placing.value.facts)
  }

  /** Sells come first, then priority, security and intent id. */
  predicate RunsBefore(x: Intent, y: Intent) {
    if x.side != y.side then x.side == SELL
    else if x.priority != y.priority then x.priority < y.priority
    else if x.security != y.security then x.security < y.security
    else x.id <= y.id
  }

  function Insert(x: Intent, ordered: seq<Intent>): seq<Intent> {
    if ordered == [] || RunsBefore(x, ordered[0]) then [x] + ordered
    else [ordered[0]] + Insert(x, ordered[1..])
  }

  function Ordered(intents: seq<Intent>): seq<Intent> {
    if intents == [] then [] else Insert(intents[0], Ordered(intents[1..]))
  }

  function RunIntents(m: Market, done: Fills, capital: real, day: Date, intents: seq<Intent>): Result<Fills>
    decreases |intents|
  {
    if intents == [] then Ok(done)
    else
      var step :- StepIntent(m, done.account, capital, day, intents[0]);
      RunIntents(m, Fills(step.account, done.trades + step.trades, done.unfilled + step.unfilled),
                 capital, day, intents[1..])
  }

  // ----- the checks and figures around one decision

  predicate Priced(m: Market, day: Date, s: Id) {
    m.rows(day, s).Some? && ReferencePrice(m.rows(day, s).value).Ok?
  }

  /** Every security held or traded needs a row with a reference price. */
  predicate AllPriced(m: Market, day: Date, ids: set<Id>) {
    forall s | s in ids :: Priced(m, day, s)
  }

  function PriceOn(m: Market, day: Date, s: Id): real {
    if Priced(m, day, s) then ReferencePrice(m.rows(day, s).value).value else 0.0
  }

  function HoldingValue(m: Market, day: Date, a: Account, s: Id): real {
    Get(a.positions, s) as real * PriceOn(m, day, s)
  }

  function HoldingsValue(m: Market, day: Date, a: Account, ids: seq<Id>): real {
    SumOver((s: Id) => HoldingValue(m, day, a, s), ids)
  }

  /** Cash, receivable and all holdings at the day's reference prices. */
  function Worth(m: Market, day: Date, a: Account, ids: seq<Id>): real {
    a.cash + a.receivable + HoldingsValue(m, day, a, ids)
  }

  function Absolute(x: real): real {
    if x < 0.0 then -x else x
  }

  /** How far one part's share of the total moved. */
  function Moved(before: real, beforeTotal: PositiveValue, after: real, afterTotal: PositiveValue): real {
    Absolute(after / afterTotal - before / beforeTotal)
  }

  /** Half the distance between the two allocations, cash included. */
  function Distance(m: Market, day: Date, before: Account, after: Account, ids: seq<Id>, was: PositiveValue,
      now: PositiveValue): real {
    Moved(before.cash + before.receivable, was, after.cash + after.receivable, now)
    + SumOver((s: Id) => Moved(HoldingValue(m, day, before, s), was, HoldingValue(m, day, after, s), now), ids)
  }

  /** The two-way turnover of a decision, and the opening value it is measured on. */
  function Turnover(m: Market, day: Date, before: Account, after: Account): Result<(real, PositiveValue)> {
    var ids := InOrder(before.positions.Keys + after.positions.Keys);
    var was, now := Worth(m, day, before, ids), Worth(m, day, after, ids);
    if was <= 0.0 || now <= 0.0 then Err(BROKEN)
    else Ok((Distance(m, day, before, after, ids, was, now) / 2.0, was))
  }

  function Concluded(m: Market, day: Date, before: Account, fills: Fills): Result<Executed> {
    var turnover :- Turnover(m, day, before, fills.account);
    Ok(Executed(fills, turnover.0, turnover.1))
  }

  function SecuritiesOf(intents: seq<Intent>): set<Id> {
    set intent | intent in intents :: intent.security
  }

  function ExecuteDecision(m: Market, a: Account, capital: real, day: Date, intents: seq<Intent>): Result<Executed> {
    if !AllPriced(m, day, a.positions.Keys + SecuritiesOf(intents)) then Err(MISSING)
    else
      var fills :- RunIntents(m, Fills(a, [], []), capital, day, Ordered(intents));
      Concluded(m, day, a, fills)
  }

  /** What an executor reports to the engine. */
  datatype Report = Report(trades: seq<(Record, Asset)>, unfilled: seq<UnfilledRecord>, turnover: real,
      base: PositiveValue)

  function ReportOf(executed: Executed): Report {
    Report(executed.fills.trades, executed.fills.unfilled, executed.turnover, executed.base)
  }

  /** The executor loop over the account object. */
  method ExecuteOn(
    account: SimulatedAccount, m: Market, capital: real, day: Date, intents: seq<Intent>)
    returns (r: Result<Report>)
    modifies account
    ensures match ExecuteDecision(m, old(account.State()), capital, day, intents)
            case Ok(executed) => r == Ok(ReportOf(executed)) && account.State() == executed.fills.account
            case Err(code) => r == Err(code)
  {
    hide StepIntent, Turnover;
    if !AllPriced(m, day, account.positions.Keys + SecuritiesOf(intents)) {
      return Err(MISSING);
    }
    var before := account.State();
    var ordered := Ordered(intents);
    var trades: seq<(Record, Asset)>, unfilled: seq<UnfilledRecord> := [], [];
    for i := 0 to |ordered|
      invariant RunIntents(m, Fills(account.State(), trades, unfilled), capital, day, ordered[i..])
             == RunIntents(m, Fills(before, [], []), capital, day, ordered)
    {
      var step := StepIntentOn(account, m, capital, day, ordered[i]);
      if step.Err? {
        return Err(step.code);
      }
      trades, unfilled := trades + step.value.0, unfilled + step.value.1;
    }
    var turnover :- Turnover(m, day, before, account.State());
    return Ok(Report(trades, unfilled, turnover.0, turnover.1));
  }

  method StepIntentOn(account: SimulatedAccount, m: Market, capital: real, day: Date, intent: Intent)
    returns (r: Result<(seq<(Record, Asset)>, seq<UnfilledRecord>)>)
    modifies account
    ensures match StepIntent(m, old(account.State()), capital, day, intent)
            case Ok(fills) => r == Ok((fills.trades, fills.unfilled)) && account.State() == fills.account
            case Err(code) => r == Err(code)
  {
    var placing :- Prepare(m, Get(account.positions, intent.security), capital, day, intent);
    if placing.None? {
      return Ok(([], []));
    }
    r := ExecuteInstructionOn(account, m, day, placing.value.instruction, placing.value.row, placing.value.facts);
  }

  /** Both executors place one sized order the same way. */
  method ExecuteInstructionOn(
    account: SimulatedAccount, m: Market, day: Date, instruction: Instruction, row: Row, facts: Facts)
    returns (r: Result<(seq<(Record, Asset)>, seq<UnfilledRecord>)>)
    requires facts.tick > 0.0 && instruction.lot > 0
    modifies account
    ensures match ExecuteInstruction(m, old(account.State()), day, instruction, row, facts)
            case Ok(fills) => r == Ok((fills.trades, fills.unfilled)) && account.State() == fills.account
            case Err(code) => r == Err(code)
  {
    if row.open.None? && !row.suspended {
      return Ok(([], [UnfilledRecord(instruction.security, instruction.side, instruction.requested, 0,
                                     instruction.requested, NO_EXECUTION_PRICE)]));
    }
    var s := instruction.security;
    var out :- Execute(m.fees, instruction, facts, day, account.cashAvailable, Get(account.positions, s),
                       Get(account.sellableQuantities, s), m.participation, m.slippage);
    if out.record.None? {
      return Ok(([], Unfulfilled(instruction, 0, out)));
    }
    var record := out.record.value;
    var applied := account.ApplyTrade(record, ReleaseDate(m, day, record.side));
    if applied.Err? {
      return Err(applied.code);
    }
    return Ok(([(record, row.asset)], Unfulfilled(instruction, record.filled, out)));
  }

  /** The account takes every BUY the simulator produces, and takes a SELL exactly when the
      proceeds and the cash cover the minimum commission. */
  lemma SimulatedFillIsAccepted(
    m: Market, a: Account, day: Date, instruction: Instruction, facts: Facts)
    requires Sound(a) && ValidFacts(facts) && instruction.lot > 0 && instruction.requested > 0
    requires m.participation >= 0.0
    requires var s := instruction.security;
             var out := Execute(m.fees, instruction, facts, day, a.cash, Get(a.positions, s), Get(a.sellable, s),
                                m.participation, m.slippage);
             out.Ok? && out.value.record.Some?
    requires instruction.security in a.positions || Get(a.sellable, instruction.security) == 0
    ensures var s := instruction.security;
            var r := Execute(m.fees, instruction, facts, day, a.cash, Get(a.positions, s), Get(a.sellable, s),
                             m.participation, m.slippage).value.record.value;
            Accounts.ApplyTrade(a, r, ReleaseDate(m, day, r.side)).Ok?
            <==> r.side == BUY || a.cash + r.gross >= r.fees.Total()
  {
    hide Execute, Gross, Price, Capacity, ApplyTrade, Sound, ReleaseDate;
    var s := instruction.security;
    SoundSellableIsHeld(a, s);
    if instruction.side == BUY {
      BuyFillIsMaximal(m.fees, instruction, facts, day, a.cash, Get(a.positions, s), Get(a.sellable, s),
                       m.participation, m.slippage);
    } else {
      SellFillIsBounded(m.fees, instruction, facts, day, a.cash, Get(a.positions, s), Get(a.sellable, s),
                        m.participation, m.slippage);
    }
    var r := Execute(m.fees, instruction, facts, day, a.cash, Get(a.positions, s), Get(a.sellable, s),
                     m.participation, m.slippage).value.record.value;
    CoveredTradeIsAccepted(m, a, day, r);
  }

  lemma SoundSellableIsHeld(a: Account, s: Id)
    requires Sound(a) && (s in a.positions || Get(a.sellable, s) == 0)
    ensures 0 <= Get(a.sellable, s) <= Get(a.positions, s)
  {
  }

  lemma CoveredTradeIsAccepted(m: Market, a: Account, day: Date, r: Record)
    requires Sound(a) && r.filled > 0 && 0 <= Get(a.sellable, r.security) <= Get(a.positions, r.security)
    requires if r.side == BUY then r.gross + r.fees.Total() <= a.cash else r.filled <= Get(a.sellable, r.security)
    ensures Accounts.ApplyTrade(a, r, ReleaseDate(m, day, r.side)).Ok?
            <==> r.side == BUY || a.cash + r.gross >= r.fees.Total()
  {
  }

  /** One share at 2 yuan, the last of a position, on a day without limits. */
  const LAST_SHARE := Facts(CSI300_ETF, 2.0, 2.0, 2.0, 2.5, 1.5, 1000, 0.5, false, false, false)

  /** The refusal happens: selling the last share at 2 yuan without cash cannot pay the minimum commission of
      the default schedule. */
  lemma SmallSellIsRefused(m: Market, s: Id, day: Date)
    requires m.fees == DEFAULT && m.participation == 1.0 && m.slippage == 0.0
    ensures var a := Account(0.0, 0.0, map[s := 1], map[s := 1], [], map[], []);
            var out := Execute(m.fees, Instruction(s, SELL, 1, 100), LAST_SHARE, day, a.cash, Get(a.positions, s),
                               Get(a.sellable, s), m.participation, m.slippage);
            && Sound(a) && ValidFacts(LAST_SHARE)
            && out.Ok? && out.value.record.Some?
            && out.value.record.value.gross == 2.0 && out.value.record.value.fees.Total() == 5.0
            && Accounts.ApplyTrade(a, out.value.record.value, ReleaseDate(m, day, SELL)) == Err(BROKEN)
  {
    hide Execute;
    SmallSellFills(s, day);
    assert Move(map[s := 1], s, -1) == map[s := 0];
  }

  lemma SmallSellFills(s: Id, day: Date)
    ensures var out := Execute(DEFAULT, Instruction(s, SELL, 1, 100), LAST_SHARE, day, 0.0, 1, 1, 1.0, 0.0);
            out.Ok? && out.value.record
                       == Some(Record(day, s, SELL, 1, 1, 2.0, 2.0, Fees(5.0, 0.0, 0.0), true, None))
  {
    LastSharePrice();
    assert (1000 as real * 1.0).Floor == 1000;
    assert Capacity(Instruction(s, SELL, 1, 100), LAST_SHARE, 1, 1.0) == 1000;
    assert Gross(1, 2.0) == 2.0;
    MinimumCommission(day);
    hide Price, Gross, Calculate, Capacity;
  }

  lemma LastSharePrice()
    ensures Price(SELL, LAST_SHARE, 0.0) == Some(2.0)
  {
    FloorOfInteger(4, 0.5);
    assert 2.0 / 0.5 == 4.0;
    assert QuantizePrice(2.0 * (1.0 + -1.0 * 0.0 / 10000.0), 0.5) == 2.0;
    assert Clamped(SELL, LAST_SHARE, 0.0) == 2.0;
  }

  lemma MinimumCommission(day: Date)
    ensures Calculate(DEFAULT, CSI300_ETF, SELL, 2.0, day) == Ok(Fees(5.0, 0.0, 0.0))
  {
    DefaultRates(CSI300_ETF, day);
  }

  // ----- what any execution amounts to: a chain of real trades

  /** One trade the account takes: shares for money, sold only from what is sellable. */
  ghost predicate RealTrade(m: Market, a: Account, day: Date, r: Record) {
    && r.date == day && r.filled > 0 && r.gross > 0.0
    && Accounts.ApplyTrade(a, r, ReleaseDate(m, day, r.side)).Ok?
    && (r.side == SELL ==> r.filled <= Get(a.sellable, r.security))
    && (Sane(m.fees) ==> r.fees.Total() >= 0.0)
  }

  function AfterTrades(m: Market, a: Account, day: Date, trades: seq<(Record, Asset)>): Result<Account> {
    if trades == [] then Ok(a)
    else
      var before :- AfterTrades(m, a, day, trades[..|trades| - 1]);
      var r := trades[|trades| - 1].0;
      Accounts.ApplyTrade(before, r, ReleaseDate(m, day, r.side))
  }

  /** Trade after trade leads from `a` to `b`. */
  ghost predicate Trades(m: Market, a: Account, day: Date, trades: seq<(Record, Asset)>, b: Account) {
    && AfterTrades(m, a, day, trades) == Ok(b)
    && forall i | 0 <= i < |trades| ::
         var before := AfterTrades(m, a, day, trades[..i]);
         before.Ok? && RealTrade(m, before.value, day, trades[i].0)
  }

  lemma NoTrades(m: Market, a: Account, day: Date)
    ensures Trades(m, a, day, [], a)
  {
  }

  lemma OneMoreTrade(m: Market, a: Account, day: Date, trades: seq<(Record, Asset)>, b: Account, t: (Record, Asset))
    requires Trades(m, a, day, trades, b) && RealTrade(m, b, day, t.0)
    ensures Trades(m, a, day, trades + [t], Accounts.ApplyTrade(b, t.0, ReleaseDate(m, day, t.0.side)).value)
  {
    assert Accounts.ApplyTrade(b, t.0, ReleaseDate(m, day, t.0.side)).Ok?;
    hide RealTrade;
    var all := trades + [t];
    assert all[..|trades|] == trades;
    forall i | 0 <= i < |all|
      ensures var before := AfterTrades(m, a, day, all[..i]);
              before.Ok? && RealTrade(m, before.value, day, all[i].0)
    {
      if i < |trades| {
        assert all[..i] == trades[..i];
      }
    }
  }

  /** An order that is placed at all changes the account by at most one applied trade. */
  ghost predicate StepApplies(m: Market, a: Account, day: Date, fills: Fills) {
    || (fills.account == a && fills.trades == [])
    || (&& |fills.trades| == 1
        && Accounts.ApplyTrade(a, fills.trades[0].0, ReleaseDate(m, day, fills.trades[0].0.side)) == Ok(fills.account))
  }

  lemma InstructionApplies(m: Market, a: Account, day: Date, instruction: Instruction, row: Row, facts: Facts)
    requires facts.tick > 0.0 && instruction.lot > 0 && ExecuteInstruction(m, a, day, instruction, row, facts).Ok?
    ensures StepApplies(m, a, day, ExecuteInstruction(m, a, day, instruction, row, facts).value)
  {
    hide Execute, Accounts.ApplyTrade;
  }

  lemma StepExtendsApplied(m: Market, a: Account, day: Date, done: Fills, step: Fills)
    requires AfterTrades(m, a, day, done.trades) == Ok(done.account) && StepApplies(m, done.account, day, step)
    ensures AfterTrades(m, a, day, done.trades + step.trades) == Ok(step.account)
  {
    if step.trades == [] {
      assert done.trades + step.trades == done.trades;
    } else {
      assert (done.trades + step.trades)[..|done.trades|] == done.trades;
    }
  }

  lemma {:induction false} RunIntentsApply(
    m: Market, a: Account, done: Fills, capital: real, day: Date, intents: seq<Intent>)
    requires AfterTrades(m, a, day, done.trades) == Ok(done.account) && RunIntents(m, done, capital, day, intents).Ok?
    ensures var out := RunIntents(m, done, capital, day, intents).value;
            AfterTrades(m, a, day, out.trades) == Ok(out.account)
    decreases |intents|
  {
    hide ExecuteInstruction, Prepare, AfterTrades, StepApplies;
    if intents != [] {
      var step := StepIntent(m, done.account, capital, day, intents[0]).value;
      var p := Prepare(m, Get(done.account.positions, intents[0].security), capital, day, intents[0]).value;
      if p.Some? {
        InstructionApplies(m, done.account, day, p.value.instruction, p.value.row, p.value.facts);
      } else {
        NothingApplies(m, done.account, day, step);
      }
      StepExtendsApplied(m, a, day, done, step);
      RunIntentsApply(
        m, a, Fills(step.account, done.trades + step.trades, done.unfilled + step.unfilled), capital, day,
        intents[1..]);
    }
  }

  lemma NothingApplies(m: Market, a: Account, day: Date, fills: Fills)
    requires fills.account == a && fills.trades == []
    ensures StepApplies(m, a, day, fills) && AfterTrades(m, a, day, []) == Ok(a)
  {
  }

  /** The last trade of a chain starts where the earlier ones led. */
  lemma LastTrade(m: Market, a: Account, day: Date, trades: seq<(Record, Asset)>, b: Account)
    requires trades != [] && Trades(m, a, day, trades, b)
    ensures var n := |trades| - 1;
            var before := AfterTrades(m, a, day, trades[..n]);
            && before.Ok? && Trades(m, a, day, trades[..n], before.value)
            && RealTrade(m, before.value, day, trades[n].0)
            && Accounts.ApplyTrade(before.value, trades[n].0, ReleaseDate(m, day, trades[n].0.side)) == Ok(b)
  {
    hide RealTrade;
    var n := |trades| - 1;
    assert forall i | 0 <= i < n :: trades[..n][..i] == trades[..i] && trades[..n][i] == trades[i];
  }

  /** What one placed order may do: nothing, or one real trade. */
  ghost predicate StepTrades(m: Market, a: Account, day: Date, fills: Fills) {
    || (fills.account == a && fills.trades == [])
    || (&& |fills.trades| == 1
        && RealTrade(m, a, day, fills.trades[0].0)
        && Accounts.ApplyTrade(a, fills.trades[0].0, ReleaseDate(m, day, fills.trades[0].0.side)) == Ok(fills.account))
  }

  lemma StepExtendsTrades(m: Market, a: Account, day: Date, done: Fills, step: Fills)
    requires Trades(m, a, day, done.trades, done.account) && StepTrades(m, done.account, day, step)
    ensures Trades(m, a, day, done.trades + step.trades, step.account)
  {
    hide Trades, RealTrade;
    if step.trades == [] {
      assert done.trades + step.trades == done.trades;
    } else {
      assert step.trades == [step.trades[0]];
      OneMoreTrade(m, a, day, done.trades, done.account, step.trades[0]);
    }
  }

  lemma TradeIsSound(m: Market, a: Account, day: Date, fills: Fills)
    requires Sound(a) && StepTrades(m, a, day, fills)
    ensures Sound(fills.account) && a.positions.Keys <= fills.account.positions.Keys
  {
  }

  /** A sized order on a sound account trades at most once; a SELL must be for a held security. */
  lemma InstructionTradesOnce(m: Market, a: Account, day: Date, instruction: Instruction, row: Row, facts: Facts)
    requires Sound(a) && m.participation >= 0.0 && ValidFacts(facts) && instruction.lot > 0 && instruction.requested > 0
    requires instruction.side == SELL ==> instruction.security in a.positions
    requires ExecuteInstruction(m, a, day, instruction, row, facts).Ok?
    ensures StepTrades(m, a, day, ExecuteInstruction(m, a, day, instruction, row, facts).value)
    ensures var fills := ExecuteInstruction(m, a, day, instruction, row, facts).value;
            fills.trades != [] ==>
              var r := fills.trades[0].0;
              && r.security == instruction.security && r.side == instruction.side
              && 0 < r.filled <= instruction.requested && r.gross == Gross(r.filled, r.price)
              && Some(r.price) == Price(r.side, facts, m.slippage)
  {
    hide Gross, Price, Calculate;
    var fills := ExecuteInstruction(m, a, day, instruction, row, facts).value;
    if fills.trades != [] {
      var s := instruction.security;
      var r := fills.trades[0].0;
      if instruction.side == BUY {
        BuyFillIsMaximal(m.fees, instruction, facts, day, a.cash, Get(a.positions, s), Get(a.sellable, s),
                         m.participation, m.slippage);
      } else {
        SellFillIsBounded(m.fees, instruction, facts, day, a.cash, Get(a.positions, s), Get(a.sellable, s),
                          m.participation, m.slippage);
        SellPriceIsPositive(facts, m.slippage);
        GrossIsPositive(r.filled, r.price);
      }
      FillFeesAreNonnegative(m, facts.asset, r);
    }
  }

  /** What one intent may do to the account: nothing, or one fill with these guarantees. */
  ghost predicate OneFill(m: Market, a: Account, capital: real, day: Date, intent: Intent, fills: Fills) {
    && |fills.trades| == 1
    && var r := fills.trades[0].0;
       && RealTrade(m, a, day, r) && r.security == intent.security && r.side == intent.side
       && Accounts.ApplyTrade(a, r, ReleaseDate(m, day, r.side)) == Ok(fills.account)
       && (r.side == BUY ==>
             && BuyNotional(intent.sizing, capital).Ok?
             && r.gross <= BuyNotional(intent.sizing, capital).value)
  }

  lemma LotsWithinNotional(quantity: int, notional: real, price: real, lot: int)
    requires price > 0.0 && lot > 0 && 0 < quantity <= WholeLots(SharesFor(notional, price), lot)
    ensures Gross(quantity, price) <= notional
  {
    var raw := (notional / price).Floor;
    assert raw == raw / lot * lot + raw % lot;
    TickFloor(notional, price);
    MulMonotone(quantity as real, raw as real, price);
  }

  lemma BudgetPriceIsTheFillPrice(facts: Facts, reference: real, slippage: real)
    requires ValidFacts(facts)
    ensures Price(BUY, facts, slippage).Some? ==>
              BudgetPrice(facts, reference, slippage) == Price(BUY, facts, slippage).value > 0.0
  {
    BuyPriceIsExact(facts, slippage);
  }

  lemma FillFeesAreNonnegative(m: Market, asset: Asset, r: Record)
    requires r.gross > 0.0 && Calculate(m.fees, asset, r.side, r.gross, r.date) == Ok(r.fees)
    ensures Sane(m.fees) ==> r.fees.Total() >= 0.0
  {
    if Sane(m.fees) {
      TotalIsMonotone(m.fees, asset, r.side, r.gross, r.gross, r.date);
    }
  }

  /** A SELL order needs a position. */
  lemma SellsOnlyHeld(
    intent: Intent, current: int, capital: real, row: Row, reference: real, facts: Facts, slippage: real)
    requires ValidFacts(facts) && reference > 0.0 && intent.side == SELL
    ensures var sized := Size(intent, current, capital, row, reference, facts, slippage);
            sized.Ok? && sized.value.Some? ==> current != 0
  {
    if current == 0 {
      var sell := SellQuantity(intent.sizing, current, reference);
      if sell.Ok? {
        assert sell.value.0 <= 0;
        assert sell.value.0 / row.sellLot * row.sellLot <= 0;
      }
    }
  }

  /** What sizing guarantees: a positive order of the intent's own, a SELL only of something held, and a
      BUY that cannot cost more than its notional at the modelled price. */
  lemma PreparedIsPlaceable(m: Market, current: int, capital: real, day: Date, intent: Intent)
    requires Prepare(m, current, capital, day, intent).Ok? && Prepare(m, current, capital, day, intent).value.Some?
    ensures var p := Prepare(m, current, capital, day, intent).value.value;
            && ValidFacts(p.facts) && p.instruction.lot > 0 && p.instruction.requested > 0
            && p.instruction.security == intent.security && p.instruction.side == intent.side
            && (intent.side == SELL ==> current != 0)
            && (intent.side == BUY ==>
                  && BuyNotional(intent.sizing, capital).Ok?
                  && (Price(BUY, p.facts, m.slippage).Some? ==>
                        forall filled: nat | 0 < filled <= p.instruction.requested ::
                          Gross(filled, Price(BUY, p.facts, m.slippage).value)
                          <= BuyNotional(intent.sizing, capital).value))
  {
    var p := Prepare(m, current, capital, day, intent).value.value;
    if intent.side == SELL {
      SellsOnlyHeld(intent, current, capital, p.row, p.reference, p.facts, m.slippage);
    } else {
      BudgetPriceIsTheFillPrice(p.facts, p.reference, m.slippage);
      var notional := BuyNotional(intent.sizing, capital).value;
      forall filled: nat | 0 < filled <= p.instruction.requested && Price(BUY, p.facts, m.slippage).Some?
        ensures Gross(filled, Price(BUY, p.facts, m.slippage).value) <= notional
      {
        LotsWithinNotional(filled, notional, Price(BUY, p.facts, m.slippage).value, p.row.buyLot);
      }
    }
  }

  lemma StepIntentFillsOnce(m: Market, a: Account, capital: real, day: Date, intent: Intent)
    requires Sound(a) && m.participation >= 0.0
    ensures var step := StepIntent(m, a, capital, day, intent);
            step.Ok? ==>
              || (step.value.account == a && step.value.trades == [])
              || OneFill(m, a, capital, day, intent, step.value)
  {
    hide RealTrade, ExecuteInstruction, Prepare, Price, Gross;
    var step := StepIntent(m, a, capital, day, intent);
    var prepared := Prepare(m, Get(a.positions, intent.security), capital, day, intent);
    if step.Ok? && prepared.value.Some? {
      var p := prepared.value.value;
      PreparedIsPlaceable(m, Get(a.positions, intent.security), capital, day, intent);
      InstructionTradesOnce(m, a, day, p.instruction, p.row, p.facts);
    }
  }

  lemma StepIntentTrades(m: Market, a: Account, capital: real, day: Date, intent: Intent)
    requires Sound(a) && m.participation >= 0.0 && StepIntent(m, a, capital, day, intent).Ok?
    ensures StepTrades(m, a, day, StepIntent(m, a, capital, day, intent).value)
  {
    hide StepIntent;
    StepIntentFillsOnce(m, a, capital, day, intent);
  }

  lemma {:induction false} RunIntentsTrade(
    m: Market, a: Account, done: Fills, capital: real, day: Date, intents: seq<Intent>)
    requires Sound(done.account) && m.participation >= 0.0 && Trades(m, a, day, done.trades, done.account)
    requires RunIntents(m, done, capital, day, intents).Ok?
    ensures var out := RunIntents(m, done, capital, day, intents).value;
            Trades(m, a, day, out.trades, out.account) && Sound(out.account)
    decreases |intents|
  {
    hide StepIntent, Trades, Sound, StepTrades;
    if intents != [] {
      var step := StepIntent(m, done.account, capital, day, intents[0]).value;
      StepIntentTrades(m, done.account, capital, day, intents[0]);
      StepExtendsTrades(m, a, day, done, step);
      TradeIsSound(m, done.account, day, step);
      RunIntentsTrade(
        m, a, Fills(step.account, done.trades + step.trades, done.unfilled + step.unfilled), capital, day,
        intents[1..]);
    }
  }

  /** A whole decision is a chain of real trades. */
  lemma DecisionTrades(m: Market, a: Account, capital: real, day: Date, intents: seq<Intent>)
    requires Sound(a) && m.participation >= 0.0 && ExecuteDecision(m, a, capital, day, intents).Ok?
    ensures var fills := ExecuteDecision(m, a, capital, day, intents).value.fills;
            Trades(m, a, day, fills.trades, fills.account)
  {
    hide Trades, RunIntents, Turnover, Sound;
    NoTrades(m, a, day);
    RunIntentsTrade(m, a, Fills(a, [], []), capital, day, Ordered(intents));
  }

  lemma SellPriceIsPositive(facts: Facts, slippage: real)
    requires ValidFacts(facts)
    ensures Price(SELL, facts, slippage).Some? ==> Price(SELL, facts, slippage).value > 0.0
  {
    SellPriceIsExact(facts, slippage);
  }

  // ----- turnover

  lemma MovedIsBounded(before: real, was: PositiveValue, after: real, now: PositiveValue)
    requires before >= 0.0 && after >= 0.0
    ensures 0.0 <= Moved(before, was, after, now) <= after / now + before / was
  {
    QuotientIsMonotone(0.0, before, was);
    QuotientIsMonotone(0.0, after, now);
  }

  lemma QuotientOfSum(x: real, y: real, n: PositiveValue)
    ensures (x + y) / n == x / n + y / n
  {
    DivideThenMultiply(x, n);
    DivideThenMultiply(y, n);
    QuotientIsUnique(x / n + y / n, x + y, n);
  }

  /** Holdings of a sound account at valid prices are worth nothing less than zero. */
  lemma HoldingIsNonnegative(m: Market, day: Date, a: Account, s: Id)
    requires Sound(a)
    ensures HoldingValue(m, day, a, s) >= 0.0
  {
    MulMonotone(0.0, PriceOn(m, day, s), Get(a.positions, s) as real);
  }

  lemma {:induction false} HoldingsMoveLessThanTheirSum(
    m: Market, day: Date, before: Account, after: Account, ids: seq<Id>, was: PositiveValue, now: PositiveValue)
    requires Sound(before) && Sound(after)
    ensures 0.0 <= SumOver(
              (s: Id) => Moved(HoldingValue(m, day, before, s), was, HoldingValue(m, day, after, s), now), ids)
                <= HoldingsValue(m, day, after, ids) / now + HoldingsValue(m, day, before, ids) / was
  {
    hide HoldingValue, Moved;
    if ids != [] {
      var s, rest := ids[0], ids[1..];
      HoldingsMoveLessThanTheirSum(m, day, before, after, rest, was, now);
      HoldingIsNonnegative(m, day, before, s);
      HoldingIsNonnegative(m, day, after, s);
      MovedIsBounded(HoldingValue(m, day, before, s), was, HoldingValue(m, day, after, s), now);
      QuotientOfSum(HoldingValue(m, day, before, s), HoldingsValue(m, day, before, rest), was);
      QuotientOfSum(HoldingValue(m, day, after, s), HoldingsValue(m, day, after, rest), now);
    } else {
      QuotientIsUnique(0.0, 0.0, was);
      QuotientIsUnique(0.0, 0.0, now);
    }
  }

  /** The two-way turnover of any decision is a fraction of the whole portfolio. */
  lemma TurnoverIsAFraction(m: Market, day: Date, before: Account, after: Account)
    requires Sound(before) && Sound(after) && Turnover(m, day, before, after).Ok?
    ensures 0.0 <= Turnover(m, day, before, after).value.0 <= 1.0
  {
    hide Moved, HoldingsValue;
    var ids := InOrder(before.positions.Keys + after.positions.Keys);
    var was, now := Worth(m, day, before, ids), Worth(m, day, after, ids);
    HoldingsMoveLessThanTheirSum(m, day, before, after, ids, was, now);
    MovedIsBounded(before.cash + before.receivable, was, after.cash + after.receivable, now);
    QuotientOfSum(before.cash + before.receivable, HoldingsValue(m, day, before, ids), was);
    QuotientOfSum(after.cash + after.receivable, HoldingsValue(m, day, after, ids), now);
    QuotientIsUnique(1.0, was, was);
    QuotientIsUnique(1.0, now, now);
  }
}
