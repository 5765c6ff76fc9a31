# Verified model of a China A-share research and backtest system

The system plans and backtests daily trading strategies on A-shares and one index ETF. It simulates a
cash account under exchange rules (lots, ticks, price limits, T+1, fees), folds an event ledger into the
state a strategy sees, publishes its results through a crash-safe swap protocol, downloads provider data
under rate limits, and derives ranks, scores and financial rows without look-ahead. This project models
that behaviour in Dafny and proves what no single function states: what every day of every run keeps, what
survives every crash, and that the loops compute what their names promise.

`dafny verify dfyconfig.toml` checks everything.

## How the model is laid out

Modules follow the source files.

- **Orders and fees**: `Numeric`, `FeeSchedule`, `Sizing`, `Execution`, `Rebalance`; what they come to in the
  day's own terms is in `Prices`, `Orders` and `Planning`.
- **Account and ledger**: `Accounts` (transitions on values), `SimulatedAccounts` (the mutable account,
  every method tied to its transition), `Reducer` (the event-sourced strategy state) and `PositionHistory`
  (what that state remembers of a ledger).
- **The closed loop**: `StagedDrawdown` (the strategy) and `Decisions` (when it sells, enters, adds or does
  nothing), `IntentExecutor` and `AllocationExecutor` (the two kinds of decision), `Engine` (the fold over
  days), `BacktestEngines` (the imperative loop, equal to the fold).
- **Theorems over whole runs**: `Books` (ledger, cash, state), `Contributions`, `Shares` (T+1, share
  placement), `Entitlements` (what each corporate action pays), `Schedules` (when decisions are carried
  out), `Solvency` and `Refusals` (the account's assertion), `Figures` (what each day reports),
  `DailyFigures` (peaks, drawdowns, turnover), `AllocationTargets`, `CapitalCap`, `Cycles`, `TieredCycle`
  and `OddFills`.
- **Protocols**: `Publisher` (a disk with faults between any two steps), `RateLimiter` (gates under ordered
  locks), `Trials` and `StudyMerge` (checkpoint, resume, merge), `Batches` and `Generations` (download
  coordinator, artifact index).
- **Data algorithms**: `FinancialRows`, `ReportedProfits` (what the columns mean) and `PointInTime`,
  `CollectionSweep`, `Ranks` and `Scores`, `Holdings`, `Nonoverlap`, `MaxDrawdown`, on top of `Sequences`.

Code that updates state in the source is a class or a method with loops, proved equal to a specification
function; the theorems are lemmas about that function. Decimals are exact reals, half-up rounding is
`floor(x + 1/2)` on nonnegatives, dates are day ordinals, identifiers are numbered in their sort order.

## Results worth knowing

- The cycle capital cap holds for true purchases in every run, without assuming anything about corporate
  actions (`CapitalCap.CycleNeverBuysMoreThanTheCap`). The tracked figure the strategy uses can be larger:
  a distribution that arrives while flat revives the previous cycle's total. `Cycles.TrackedIsBoughtPlusStale`
  says by exactly how much, and `Cycles.StaleCycleCounterexample` shows it on a ledger the account writes.
- On any day of any run the staged strategy, given a complete history, raises its own state error if and only
  if it holds shares its cycle never bought (`Cycles.StagedStateErrorExactlyWhen`), so never where no
  distribution arrives on a flat position (`Cycles.StagedStateErrorsAreUnreachable`).
- A tiered exit is exact while fills are whole lots, which a SELL of whole lots below the holding gets exactly
  when the sellable shares do not cut it or are whole lots (`Execution.SellFillsWholeLotsExactlyWhen`). After
  an odd-lot fill the same tier can sell the whole position: `TieredCycle.TierOrderExactly` gives the exact
  condition, `OddFills.OddFillCounterexample` an instance
  (src/xqatexp/strategy/strategies/staged_drawdown_v1/strategy.py:264-329).
- In any run, the available cash is the capital, less what the reported trades cost, plus what they brought, plus
  for every dividend paid by then the shares the ledger shows at the close of its record date times its cash per
  share; the receivable is every such dividend declared and not yet paid
  (`Entitlements.CashComesFromFillsAndDividends`).
- Between two fills the last purchase price times the quantity never changes, whatever is distributed or split
  (`PositionHistory.BetweenFills`), so an unchanged value never triggers an addition.
- The trailing profit of a financial row is the sum of the four latest single quarters, as visible at the
  announcement, whenever the profits to date behind them are (`ReportedProfits.ProfitsOfARow`).
- The two-way turnover is exactly the part of the portfolio that changed hands (`Orders.TurnoverIsWhatMoved`).
- A sale cut only by the sellable shares is not among the unfilled records
  (`Orders.ShortfallIsReportedExactlyWhen`; src/xqatexp/backtest/execution.py:80-82).
- An order has no price if and only if the day allows no tick at all, or its nearest tick is beyond a bound that is
  itself not a tick (`Prices.NoPriceExactlyWhen`): in that case allowed ticks can exist and are not used.
- Under ERROR or SKIP an occupied target is never touched, whatever faults occur (`Publisher.Publish`).
- An executed allocation leaves every position between where it was and its target, whatever filled
  (`AllocationTargets.AllocationNeverOvershoots`).
- The account's own assertion is derived, not assumed: from where every share is and what is still owed, no
  release, ex date, payment, listing or recording can break it in any run (`Solvency.OpeningNeverBreaks`,
  `Solvency.RecordingNeverBreaks`). A morning ends in the account's error if and only if a sale cannot pay its
  fees from the cash and its own proceeds, or the account is worth nothing around a decision
  (`Refusals.MorningBreaksExactlyWhen`); a close if and only if the net asset value is not positive
  (`Refusals.CloseBreaksExactlyWhen`). `IntentExecutor.SmallSellIsRefused` shows a refused sale of one odd share.
- The analyzed maximum drawdown is never deeper than the worst daily figure, and equals it if and only if no
  close before the first one above the capital is further below the capital than that
  (`DailyFigures.DailyAndAnalyzedDrawdownsAgree`). No order is due on the first day, so every run closes it at
  its capital (`DailyFigures.FirstCloseIsTheCapital`) and there the two are equal.
- Point-in-time derivation is free of look-ahead when history is cut on availability. Cutting on the
  announcement date is safe for every filing history if and only if the next trading day is the day after the
  cut, or there is none (`PointInTime.AnnouncementCutIsSafeExactlyWhen`): the loss streak reads rows by
  availability.
- Holding hysteresis needs only that the exit rank exceeds the entry rank; the order of the two holding-week
  bounds is not needed.
- The scoring function takes a custom weight without custom values out of every score
  (`Scores.ScoresAreBalanced` states the total as a function of what is delivered). Only a direct caller can
  reach this: parameter loading refuses it
  (src/xqatexp/strategy/strategies/weekly_market_guard_rank_v1/parameters.py:122-125).

## Hypotheses

- Corporate actions: record date before ex date, ex date no later than listing date, and no ex or listing
  date strictly between two consecutive visited days (`Shares.WellTimed`); rows with one event id are one row.
- For the cash of a run by its dividends: record date before ex date and before pay date.
- For the account's assertion: no dividend is paid before its ex date, and none is negative
  (`Solvency.Payable`). A payment before the ex date takes from the receivable what was never added and raises
  (`Solvency.EarlyPaymentBreaks`).
- Engine inputs: visited days increase; participation rate and distribution ratios are nonnegative
  (`Books.SoundInputs`); for the cap, the strategy's next trading day never skips a visited day.
- For the strategy's own state errors: a sane fee schedule.
- Allocation targets name each security once (src/xqatexp/portfolio/validation.py:18-20).
- Publisher: one publisher per target; verification of a valid artifact does not fail (`reliable`) where
  recovery is claimed to complete.
- Interval overlap: each interval starts no later than it ends, as raw requests enforce
  (src/xqatexp/providers/tushare/raw.py:56).

## Model

| member | source | states |
|---|---|---|
| FeeSchedule.DefaultFeesAreSane | src/xqatexp/backtest/fees.py:33-83 | under the default schedule every fee component is nonnegative (the residual stamp duty included), commission is at least 5 yuan, and the only error is an A-share date before the schedule starts |
| FeeSchedule.ComponentsSumToRoundedTotal | src/xqatexp/backtest/fees.py:61-83 | for any rates the three components sum exactly to the half-up-rounded raw total |
| FeeSchedule.TotalIsMonotone | src/xqatexp/backtest/fees.py:61-83 | the rounded, minimum-commission total never falls as the amount grows |
| FeeSchedule.FeesMean | src/xqatexp/backtest/fees.py:61-93 | under the rates in force on the date (the last entry not after it) the total is the exact sum of commission with its minimum, transfer fee and, for share sales only, stamp duty, rounded once to fen; transfer is rounded alone, and the duty, or commission where there is none, takes the residual |
| FeeSchedule.FeesFailExactlyWhen | src/xqatexp/backtest/fees.py:86-93 | fees raise if and only if it is a share trade and every history entry starts after the date |
| Sizing.BisectIsLargest | src/xqatexp/backtest/execution.py:158-178 | the upper-biased binary search misses no accepted count on a downward-closed question |
| Sizing.SearchLots | src/xqatexp/backtest/execution.py:158-178 | the search loop computes that search |
| Sizing.AffordableQuantityIsLargest | src/xqatexp/portfolio/planning.py:14-31 | the planned quantity is a lot multiple within the wish whose cost with fee fits the cash, and no larger such multiple fits |
| Sizing.ComputeAffordableQuantity | src/xqatexp/portfolio/planning.py:19-31 | the imperative sizing returns that quantity, zero for every degenerate input |
| Execution.BuyPriceIsExact | src/xqatexp/backtest/execution.py:137-156 | a BUY price lies on a tick, inside the day's range and limits and never below the open; it is the largest tick not above the clamped slipped price, and there is none exactly when no tick fits |
| Execution.SellPriceIsExact | src/xqatexp/backtest/execution.py:137-156 | the mirrored statement: the smallest tick not below the clamped price, never above the open |
| Execution.BuyFillIsMaximal | src/xqatexp/backtest/execution.py:47-127 | a BUY fill is a whole number of lots within the request and the volume cap, its cost with fees fits the cash, no larger lot multiple would fit, and a reason is given exactly when something is unfilled |
| Execution.BuyIsRefusedExactlyWhen | src/xqatexp/backtest/execution.py:50-102 | a BUY is refused in full if and only if trading is blocked, no price exists, or not even one lot is affordable |
| Execution.SellFillIsBounded | src/xqatexp/backtest/execution.py:47-127 | a SELL never exceeds request, sellable shares or volume capacity, and a partial sale carries a reason exactly when volume cut it |
| Execution.SellFillsWholeLotsExactlyWhen | src/xqatexp/backtest/execution.py:65-87 | a SELL of whole lots, smaller than the holding, fills whole lots if and only if the sellable shares do not cut it or are themselves whole lots |
| Execution.CashQuantityIsLargest | src/xqatexp/backtest/execution.py:158-178 | the cash-limited quantity is the largest affordable lot multiple |
| Prices.BuyPriceMeans | src/xqatexp/backtest/execution.py:137-156 | a BUY trades at a tick the day allows, no better than the open: the one nearest to the open plus slippage; or a bound that forces it up; or, when the target is too high, the highest allowed tick |
| Prices.SellPriceMeans | src/xqatexp/backtest/execution.py:137-156 | a SELL trades at the allowed tick nearest to the open less slippage; or at a bound that forces it down; or at the lowest allowed tick |
| Prices.NoPriceExactlyWhen | src/xqatexp/backtest/execution.py:137-156 | there is no price if and only if no tick is allowed, or the nearest tick is beyond a bound that is not a tick |
| Prices.CapacityMeans | src/xqatexp/backtest/execution.py:65-80 | the volume cap is the largest number of whole lots, of single shares for a full exit, within the participation |
| Prices.BarredOrdersSayWhy | src/xqatexp/backtest/execution.py:50-64 | a suspended, locked or unpriced order trades nothing and names that reason |
| Prices.SellFillMeans | src/xqatexp/backtest/execution.py:79-127 | a priced SELL fills the least of request, capacity, holding and sellable shares, reports price, amount, fees and completeness, and blames the volume exactly when the volume cut it |
| Prices.BuyFillMeans | src/xqatexp/backtest/execution.py:79-127 | a priced BUY reports its fill likewise and blames the volume when the volume cut it, the cash otherwise |
| IntentExecutor.SimulatedFillIsAccepted | src/xqatexp/backtest/account.py:41-62 | the account accepts every simulated BUY, and a simulated SELL if and only if cash and proceeds cover the fees |
| IntentExecutor.SmallSellIsRefused | src/xqatexp/backtest/account.py:41-62 | an instance of the refusal: the last share, sold at 2 yuan without cash, cannot pay the 5 yuan minimum |
| IntentExecutor.StepIntentFillsOnce | src/xqatexp/backtest/intent_executor.py:116-268 | one intent leaves the account alone or makes exactly one fill of its own security and side that the account accepts, within its notional for a BUY and within the sellable shares for a SELL |
| IntentExecutor.ExecuteOn | src/xqatexp/backtest/intent_executor.py:35-114 | the executor over the account object gives the trades, unfilled records, turnover, account and errors of the specified fold, the check that every held or traded security has a priced row included |
| IntentExecutor.DecisionTrades | src/xqatexp/backtest/intent_executor.py:72-100 | whatever the intents, a decision changes the account only by a chain of real trades: positive fills dated that day, each accepted, each sale covered by the shares sellable at that moment |
| IntentExecutor.TurnoverIsAFraction | src/xqatexp/backtest/intent_executor.py:297-323 | the two-way turnover between any two sound accounts lies in [0, 1] |
| Orders.FactsMean | src/xqatexp/backtest/intent_executor.py:271-295 | each figure of the day is the row's own when given, else the close, for the limits of a trading day its high and low; the facts fail exactly when one of them is missing or not positive |
| Orders.BuySizeMeans | src/xqatexp/backtest/intent_executor.py:116-180 | a BUY intent asks for the most whole buy lots its notional pays for at the price it would trade at, or at the reference price without one |
| Orders.SellSizeMeans | src/xqatexp/backtest/intent_executor.py:145-201 | a SELL intent asks for the whole position, odd lots included, when its sizing comes to all of it, and otherwise for the most whole sell lots within it |
| Orders.OrderedInTurn | src/xqatexp/backtest/intent_executor.py:64-72 | every intent is executed once, sells before buys, then by priority, security and intent number |
| Orders.SalesFundPurchases | src/xqatexp/backtest/intent_executor.py:64-100 | in the trades of any decision no sale follows a purchase |
| Orders.ShortfallIsReportedExactlyWhen | src/xqatexp/backtest/intent_executor.py:203-268 | an order without a fill is recorded as unfilled in full; a partly filled one records what is missing if and only if it buys or the volume cut it |
| Orders.ReleaseMeans | src/xqatexp/backtest/intent_executor.py:242-252 | a purchase becomes sellable on the next trading day, or after a week where the calendar ends |
| Orders.TurnoverIsWhatMoved | src/xqatexp/backtest/intent_executor.py:297-323 | the two-way turnover is the sum of what cash and holdings gained as parts of the portfolio, and its base is the value before the trades at reference prices |
| AllocationExecutor.ExecuteAllocationOn | src/xqatexp/backtest/decision_executor.py:53-160 | the executor of target weights over the account object: plan and place the sells, plan again with the cash there is, place the buys, with the trades, records, turnover, account and errors of the specified steps |
| AllocationExecutor.PlannedOrdersArePlaceable | src/xqatexp/backtest/decision_executor.py:98-146 | from any sound account the planner orders positive quantities and sells only what is held |
| AllocationExecutor.AllocationTrades | src/xqatexp/backtest/decision_executor.py:107-146 | an allocation, too, changes the account only by a chain of real trades |
| AllocationTargets.AllocationNeverOvershoots | src/xqatexp/backtest/decision_executor.py:53-160 | over both plans, partial fills, volume caps and cash limits: a position above its target ends between target and start, one below ends between start and target |
| AllocationTargets.SalesAreTheExcess | src/xqatexp/portfolio/rebalance.py:54-85 | all sells of one security together never ask for more than it exceeds its target by |
| AllocationTargets.WishesAreTheLack | src/xqatexp/portfolio/rebalance.py:86-103 | all buy candidates of one security together never wish for more than its target lacks |
| Planning.TargetMeans | src/xqatexp/portfolio/rebalance.py:43-53 | a target is the most whole buy lots that the weight's part of the portfolio, rounded to fen, pays for |
| Planning.RankedAreTheShort | src/xqatexp/portfolio/rebalance.py:86-104 | the budget goes to exactly the priced securities short of their targets, the widest relative gap first, then the smaller priority with none last, then the id |
| Planning.PlanMeans | src/xqatexp/portfolio/rebalance.py:82-127 | a plan lists its sales exits first and then by id, its purchases in that order, and the cash that is left in fen |
| Planning.ExcessIsSold | src/xqatexp/portfolio/rebalance.py:54-81 | every priced position above its target is sold as far as lots and sellable shares allow |
| Planning.NoTargetForANegativePart | src/xqatexp/portfolio/rebalance.py:43-53 | a negative part of the portfolio has no target |
| Planning.OrdersKeepTheirLots | src/xqatexp/portfolio/rebalance.py:67-127 | planned orders are placed for their own security, side and quantity, in the lots of that side |
| Planning.PlannerIsTold | src/xqatexp/backtest/decision_executor.py:53-97 | the planner gets the reference price, lots and purchase fees of every security held or targeted |
| Planning.AllocationMeans | src/xqatexp/backtest/decision_executor.py:98-160 | the sales are planned on the account as it opened and without a budget, the purchases on the account they leave and its cash, and both on the value at the open |
| SimulatedAccounts.SimulatedAccount.constructor | src/xqatexp/backtest/account.py:24-39 | a new account holds the initial cash, positions and sellable quantities and one opening ledger event |
| SimulatedAccounts.SimulatedAccount.ApplyTrade | src/xqatexp/backtest/account.py:41-62 | applies the specified trade, or raises its error |
| SimulatedAccounts.SimulatedAccount.ReleaseSellable | src/xqatexp/backtest/account.py:64-72 | releases exactly the due buckets |
| SimulatedAccounts.SimulatedAccount.RecordEntitlement | src/xqatexp/backtest/account.py:74-98 | records the entitlement once |
| SimulatedAccounts.SimulatedAccount.ApplyEntitlementExDate | src/xqatexp/backtest/account.py:100-114 | moves dividends to receivable and shares into the position |
| SimulatedAccounts.SimulatedAccount.PayEntitlementCash | src/xqatexp/backtest/account.py:116-121 | moves a dividend from receivable to available cash |
| SimulatedAccounts.SimulatedAccount.ReleaseEntitlementStock | src/xqatexp/backtest/account.py:123-129 | makes distributed shares sellable, splits excepted |
| SimulatedAccounts.SimulatedAccount.RecordValuation | src/xqatexp/backtest/account.py:131-132 | appends a valuation event and nothing else |
| SimulatedAccounts.SimulatedAccount.AssertInvariants | src/xqatexp/backtest/account.py:153-158 | raises exactly when a balance is negative or sellable exceeds the position |
| Accounts.ReleaseDueMoves | src/xqatexp/backtest/account.py:64-72 | a release moves exactly the due shares from pending to sellable and leaves nothing due |
| Accounts.EarliestComesFirst | src/xqatexp/backtest/account.py:64-72 | buckets are released in the order of their dates, and of one date in the order they were made |
| Reducer.FoldInChunks | src/xqatexp/strategy/state.py:98-106 | folding from a cursor chunk by chunk is folding the whole ledger, errors included |
| Reducer.FoldEvents | src/xqatexp/strategy/state.py:98-134 | the head-first loop computes the fold |
| PositionHistory.PurchaseSets | src/xqatexp/strategy/state.py:136-168 | after a purchase the last price, side, date and quantity are its own, the cost has grown by amount and fees, and a purchase from flat starts the cycle's count |
| PositionHistory.SaleKeepsPriceAndCost | src/xqatexp/strategy/state.py:169-211 | a sale keeps the last buy price, the cycle's purchases and the cost per share of what is left |
| PositionHistory.OtherEventsKeep | src/xqatexp/strategy/state.py:108-134 | every other event keeps the last trade, the cost and the cycle's purchases, and the last buy price times the quantity |
| PositionHistory.AdjustmentRescalesTheExit | src/xqatexp/strategy/state.py:213-244 | an adjustment rescales what a partial exit has sold in proportion, to twelve decimals |
| PositionHistory.BetweenFills | src/xqatexp/strategy/state.py:108-244 | over any part of an accepted ledger without fills of a security, its last trade, cost and last buy price times quantity stay as they were |
| PositionHistory.RunsKeepTheLastPurchase | src/xqatexp/strategy/state.py:108-244 | the same on the ledger of any run, between any two of its moments |
| PositionHistory.EventIsRefusedExactlyWhen | src/xqatexp/strategy/state.py:108-244 | the fold refuses the next event of a ledger of real fills if and only if it opens with other capital, is a fill dated before the last fill or valuation, sells more than the ledger shows, or takes shares away |
| StagedDrawdown.FindSetup | src/xqatexp/strategy/strategies/staged_drawdown_v1/strategy.py:225-262 | the backward scan finds the most recent setup after the last trade, or none exists in the window |
| StagedDrawdown.DecisionStaysWithinBudget | src/xqatexp/strategy/strategies/staged_drawdown_v1/strategy.py:83-147 | for any prices a decision concerns only its own security, and a BUY orders at most the cycle's unused capital |
| StagedDrawdown.DecideRefusesStateExactlyWhen | src/xqatexp/strategy/strategies/staged_drawdown_v1/strategy.py:38-82 | given a complete history, the state error is raised if and only if a held position lacks cost basis or, in tiered mode, its exit history |
| Decisions.DecisionExactly | src/xqatexp/strategy/strategies/staged_drawdown_v1/strategy.py:38-147 | a SELL falls if and only if the position has gained the take-profit rate, or a reached tier has shares left; an entry if and only if flat and the window declined far, often and never too fast, in rebound mode some recent one the price has turned up from; an addition if and only if neither, the close is far enough below the last purchase, the last side allows it and budget is left, for the smaller of the standard notional and that budget; otherwise nothing |
| Decisions.DecisionFailsExactlyWhen | src/xqatexp/strategy/strategies/staged_drawdown_v1/strategy.py:38-82 | it raises if and only if the history is incomplete, the held state is unusable, or a tiered exit has no lot rule |
| Decisions.SetupMeansSinceLastTrade | src/xqatexp/strategy/strategies/staged_drawdown_v1/strategy.py:225-262 | the scan finds a setup if and only if some window within reach declined with no day since its end before the last trade |
| Decisions.TierTargetMeans | src/xqatexp/strategy/strategies/staged_drawdown_v1/strategy.py:286-329 | a tier calls for the most whole lots within its cumulative fraction of the shares the exit started from |
| Decisions.HistoryIsCompleteExactlyWhen | src/xqatexp/strategy/strategies/staged_drawdown_v1/strategy.py:38-82 | a history is complete with exactly the days the lookback, rebound window and average need, all closes positive |
| BacktestEngines.RunBacktest | src/xqatexp/backtest/engine.py:92-342 | the loop over one mutable account, with trade intents or allocations, benchmark, peak and turnover figures, returns exactly what the fold over days defines, refusals included |
| BacktestEngines.FirstRefusalEndsTheRun | src/xqatexp/backtest/engine.py:92-342 | the first day that refuses ends the run with its error |
| Schedules.PendingIsExact | src/xqatexp/backtest/engine.py:130-316 | after any days of any run, of either kind of decision, every decision is for a later day, and what is pending is exactly the decisions made for days not yet visited |
| Schedules.DueIsTheDecision | src/xqatexp/backtest/engine.py:130-171 | a day carries out a decision if and only if one was made for it on an earlier day, from the state replaying that day's ledger gives, and it is that one |
| Schedules.DecisionsAreForDifferentDays | src/xqatexp/backtest/engine.py:263-316 | no two decisions of a run are for the same day |
| Schedules.DecisionIsRefusedExactlyWhen | src/xqatexp/backtest/engine.py:263-316 | a closing decision is refused with the strategy's own error, or if and only if it is not for a later day or is for a day that has one, each kind with its own code |
| Books.CashIsConserved | src/xqatexp/backtest/account.py:41-121 | after any days of any run, of either kind of decision, available plus receivable cash is initial capital less buys and fees plus sells net of fees plus declared dividends |
| Entitlements.RightIsExact | src/xqatexp/backtest/corporate_actions.py:25-51 | a right gives the held shares times cash per share and ratio, for a split the sellable shares times the ratio at once; it is refused if and only if the kind is unknown and shares are held, or a product is not whole |
| Entitlements.RightsAreExact | src/xqatexp/backtest/engine.py:130-262 | in any run a right exists if and only if its record date was visited, and is what the action gives for the shares the ledger shows and those sellable at that close |
| Entitlements.CashComesFromFillsAndDividends | src/xqatexp/backtest/engine.py:130-171 | in any run available cash is capital plus the reported trades plus the dividends paid by then, and the receivable the dividends declared and not paid, each the ledger's shares on the record date at its cash per share |
| Books.StrategyStateFollowsTheAccount | src/xqatexp/backtest/engine.py:258-261 | in every reachable state the cursor-chunked fold equals replay of the whole ledger, succeeds, and gives the account's quantity of every security with a consistent exit history |
| Books.ReducerErrorsAreUnreachable | src/xqatexp/strategy/state.py:136-244 | the fold before a day's decision never raises a sell, date or exit-invariant error |
| Contributions.ContributionNeverMismatches | src/xqatexp/performance/contribution.py:34-43 | whatever the closing values, every day's contributions add up to its return and the cash contribution times the opening value is exactly minus that day's fees, so the mismatch error is unreachable |
| Figures.DayMeans | src/xqatexp/backtest/engine.py:172-255 | the record of any day: balances and market values of the account, net value as their sum, exposure, return from the day before, benchmark close, value and return from the run's first close, what idle cash missed, one-way turnover against the value before the decision, two-way turnover as the part that moved, and stock, fund and cash contributions from the day's own trades and dividends |
| Shares.EveryShareIsPlaced | src/xqatexp/backtest/account.py:41-129 | after any days of any run, each position is sellable plus every pending bucket plus shares that are ex but not delivered |
| Shares.AllListedMeansAllDelivered | src/xqatexp/backtest/corporate_actions.py:25-66 | without splits and with everything listed, a position is exactly sellable plus pending |
| Shares.NoShareIsSoldOnItsPurchaseDay | src/xqatexp/backtest/intent_executor.py:245-252 | in every run, what a day sells was sellable when trading opened and what it buys is released on later days only |
| Solvency.SellableFollowsFromPlacement | src/xqatexp/backtest/account.py:153-158 | where shares are placed and rights are nonnegative, every security has between zero and its position sellable, and the receivable covers every dividend that is ex and unpaid |
| Solvency.OpeningNeverBreaks | src/xqatexp/backtest/account.py:64-129 | on the next day of any run, releases, ex dates, payments and listings all go through, and leave the placement and the cover of the row above in force |
| Solvency.RecordingNeverBreaks | src/xqatexp/backtest/account.py:74-98 | recording the rights of a day never fires the assertion, whatever the day traded and closed at |
| Solvency.EarlyPaymentBreaks | src/xqatexp/backtest/account.py:116-121 | with nothing receivable, paying a positive dividend, as a pay date before the ex date does, always raises |
| Refusals.InstructionBreaksExactlyWhen | src/xqatexp/backtest/intent_executor.py:203-268 | on a covered account one placed order is refused by the account if and only if the simulator fills a sale whose fees exceed the cash and its proceeds |
| Refusals.DecisionBreaksExactlyWhen | src/xqatexp/backtest/intent_executor.py:35-114 | a decision ends in the account error if and only if all is priced and some sale in turn cannot pay its fees, or all orders go through and the account is worth nothing before or after |
| Refusals.AllocationBreaksExactlyWhen | src/xqatexp/backtest/decision_executor.py:53-160 | the same for an allocation, where only planned sales can be refused, never the purchases |
| Refusals.MorningBreaksExactlyWhen | src/xqatexp/backtest/engine.py:130-171 | in any run a morning ends in the account error if and only if a decision is due and one of those two cases holds on the account as it opened |
| Refusals.CloseBreaksExactlyWhen | src/xqatexp/backtest/engine.py:172-255 | in any run a close ends in that error if and only if the market values report it themselves or the net asset value is not positive |
| CapitalCap.CycleNeverBuysMoreThanTheCap | src/xqatexp/strategy/strategies/staged_drawdown_v1/strategy.py:83-147 | at every moment of every run of the staged strategy, gross bought since the position was last zero is at most the capital fraction allowed, for any prices, slippage, partial fills, sells and corporate actions |
| Cycles.TrackedIsBoughtPlusStale | src/xqatexp/strategy/state.py:149-168 | the tracked cumulative purchases are the cycle's purchases plus exactly the stale amount a flat adjustment brought back |
| Cycles.WithoutFlatAdjustmentsStateIsExact | src/xqatexp/strategy/state.py:149-244 | without adjustments on a flat position nothing is stale and the state is always usable |
| Cycles.PurchasesBackThePosition | src/xqatexp/strategy/state.py:149-244 | on every ledger the reducer accepts, a held position has a cost basis if and only if its cycle bought something, and after a partial sale it remembers the base it sells down from |
| Cycles.StaleLedgerIsWritten | src/xqatexp/backtest/account.py:24-129 | the account itself writes the ledger of the next row: opening, buy, entitlement, release, sale, ex date with its dividend event, buy |
| Cycles.StaleCycleCounterexample | src/xqatexp/strategy/state.py:163-166 | on that ledger the tracked purchases are twice the true ones |
| Cycles.StagedStateErrorExactlyWhen | src/xqatexp/strategy/strategies/staged_drawdown_v1/strategy.py:38-82 | on any day of any run that reaches its decision the fold succeeds, and the strategy, given a complete history, raises its state error if and only if shares are held that the cycle on the ledger never bought |
| Cycles.StagedStateErrorsAreUnreachable | src/xqatexp/strategy/strategies/staged_drawdown_v1/strategy.py:38-82 | where no distribution arrives on a flat position it never does, and the cycle figure it uses is the true one |
| TieredCycle.TierOrderExactly | src/xqatexp/strategy/strategies/staged_drawdown_v1/strategy.py:264-329 | for any amount sold so far, exactly when a tier below the last is silent, sells everything, or sells a fixed quantity |
| TieredCycle.LotFillsKeepTiersExact | src/xqatexp/strategy/strategies/staged_drawdown_v1/strategy.py:264-329 | after whole-lot sales a tier orders exactly what its target lacks, strictly below the position, or is silent |
| TieredCycle.TieredExitProgress | src/xqatexp/strategy/state.py:169-204 | over any history of tier orders and whole-lot fills the base stays locked, base minus sold is the quantity, and sold never passes the highest fired tier's target |
| TieredCycle.FilledTierStaysSilent | src/xqatexp/strategy/strategies/staged_drawdown_v1/strategy.py:286-329 | a tier filled in full, and every lower one, orders nothing until a higher tier fires |
| TieredCycle.WholeLotExecutionFires | src/xqatexp/backtest/execution.py:65-87 | with whole lots sellable, what the simulator fills of a tier order is a fill the progress theorem covers |
| OddFills.OddLedgerIsWritten | src/xqatexp/backtest/account.py:24-129 | the account itself comes to 1000 shares of which 250 are sellable: 200 bought, 50 distributed and listed, 750 distributed and not yet listed |
| OddFills.OddFillCounterexample | src/xqatexp/strategy/strategies/staged_drawdown_v1/strategy.py:318-329 | on that account and the position its ledger folds to, at 15 percent profit with a 30 percent first tier, the simulator fills 250 of the 300 ordered, and the same tier then sells the whole position |
| TieredCycle.TierOrderIsRequestedWhole | src/xqatexp/backtest/intent_executor.py:182-201 | the executor requests a fixed tier quantity in full |
| Rebalance.SellQuantityIsLargest | src/xqatexp/portfolio/rebalance.py:59-68 | a planned sale never passes the target or the sellable quantity, an exit sells all that is sellable, and otherwise no larger lot multiple fits |
| Rebalance.SalesStopAtTheTarget | src/xqatexp/portfolio/rebalance.py:54-85 | every sale in a plan leaves its position at or above the target and is covered by sellable shares |
| Rebalance.GreedyLeavesNothingUseful | src/xqatexp/portfolio/rebalance.py:104-126 | the greedy buys never exceed the budget in total, and raising any buy to any larger lot multiple within its wish would cost more than the cash left over; the daily advice runs the same loop |
| Rebalance.GreedyStaysWithinBudget | src/xqatexp/portfolio/rebalance.py:104-126 | for any fees at all the greedy buys never cost more than the budget in total |
| Rebalance.BuysStopAtTheTarget | src/xqatexp/portfolio/rebalance.py:86-126 | every buy in a plan leaves its position at or below the target |
| Rebalance.BuyGreedily | src/xqatexp/portfolio/rebalance.py:104-126 | the budget loop computes the greedy quantities and the cash they leave |
| Rebalance.PlanRebalance | src/xqatexp/portfolio/rebalance.py:31-127 | the plan is the sells, exits first, then the greedy buys in gap, priority and id order, and the cash left; it fails exactly when a position above its target is priced without a lot rule, or a searched purchase has no fee |
| Rebalance.ScheduleFeesAreBuyable | src/xqatexp/daily/advice.py:134-148 | the fees of any sane schedule satisfy what the budget argument needs |
| Publisher.Publish | src/xqatexp/artifacts/publisher.py:32-105 | however and wherever a publication ends, no last artifact is lost, only the new one can come up, and success leaves the new one verified at the target; nothing is published to an unsafe path or with too little space before or after the build, and an unsafe path leaves the disk alone; under a policy other than OVERWRITE an occupied target without leftovers is never changed, whatever faults occur, ERROR alone refuses and SKIP alone skips, and only over a valid target; one exception at any step never leaves an occupied target absent; without faults and leftovers a proper build is published and nothing else on the disk changes, and an improper one fails with the disk unchanged |
| Publisher.Replace | src/xqatexp/artifacts/publisher.py:78-98 | record, move aside, install, drop record, drop backup: every prefix keeps an artifact in target or recorded backup, one exception never leaves the target absent, and without faults only the target changes |
| Publisher.Exchange | src/xqatexp/artifacts/publisher.py:88-98 | the part after the record is written, from the move aside on |
| Publisher.Attempt | src/xqatexp/artifacts/publisher.py:62-102 | build, verify, then install, or replace under OVERWRITE only, under any fault; without it an existing target is left as it is |
| Publisher.Recover | src/xqatexp/artifacts/publisher.py:116-159 | recovery, itself interruptible anywhere, loses nothing and leaves a valid target alone; without faults or torn records it completes; completed with reliable reads it leaves a valid target and no record, staging or recorded backup |
| Publisher.RecoverRecord | src/xqatexp/artifacts/publisher.py:123-159 | the same for one record; a torn record raises, and a target that is not valid becomes the recorded backup |
| Publisher.ReplaceTarget | src/xqatexp/artifacts/publisher.py:135-149 | an invalid target is set aside and the backup restored and checked before anything is deleted |
| Publisher.PublishThenRecover | src/xqatexp/artifacts/publisher.py:32-159 | any history of publications that succeed, fail or stop anywhere, then a recovery: nothing once valid is lost without a new artifact in its place |
| Publisher.RestoringKeeps | src/xqatexp/artifacts/publisher.py:132-134 | restoring a recorded backup to an absent target loses nothing |
| Publisher.ValidTargetIsEnough | src/xqatexp/artifacts/publisher.py:150-155 | with a valid target, backups and records may be deleted |
| Publisher.DroppingTargetKeeps | src/xqatexp/artifacts/publisher.py:135-142 | a target may be set aside while a recorded backup is valid |
| Publisher.TheOnlyRecordCounts | src/xqatexp/artifacts/publisher.py:117-133 | with at most one record, a surviving artifact is at the target or in that record's backup |
| RateLimiter.TokenBucket.Create | src/xqatexp/providers/tushare/client.py:77-94 | a new gate is full and not cooling down; a rate or capacity that is not positive raises |
| RateLimiter.TokenBucket.Defer | src/xqatexp/providers/tushare/client.py:96-98 | a deferral only ever extends the cooldown |
| RateLimiter.TryAcquireMany | src/xqatexp/providers/tushare/client.py:113-130 | one locked pass grants if and only if every gate is ready, takes one permit from each gate or from none, and otherwise names exactly the longest wait among the gates |
| RateLimiter.PermitsAreEarned | src/xqatexp/providers/tushare/client.py:74-130 | under any schedule, permits granted never exceed the level at the start plus what time earned |
| RateLimiter.WindowIsRateLimited | src/xqatexp/providers/tushare/client.py:74-130 | in any window of length T, after any history, a gate grants at most capacity plus rate times T permits |
| RateLimiter.NothingGrantedDuringCooldown | src/xqatexp/providers/tushare/client.py:96-130 | whatever happens in between, nothing is granted before a deferral has run out |
| RateLimiter.AllPermitsOrNone | src/xqatexp/providers/tushare/client.py:103-130 | several gates are charged together or not at all, and the other gates are untouched |
| RateLimiter.RetryAfterDelaySucceeds | src/xqatexp/providers/tushare/client.py:116-130 | undisturbed, a retry after the named delay succeeds |
| Trials.Study.RunTrials | src/xqatexp/optimization/runner.py:53-131 | under any completion order, any worker death and any crash point the study stays sound and artifacts are kept; resume raises exactly on a conflicting study, which a sound one never is; a run finishes once every job without an artifact was saved or lost its worker, and then gives every job the verdict of a plain evaluation, or failed if its worker died before its result was saved; the checkpoint holds exactly the recovered, saved and lost jobs |
| Trials.Study.Recover | src/xqatexp/optimization/runner.py:78-100 | start-up finds exactly the recorded artifacts and the pending jobs, and refuses exactly the conflicting studies |
| Trials.ResumeUntilDone | src/xqatexp/optimization/runner.py:53-131 | any crash-and-resume history from a fresh study finishes as soon as some process leaves no job unsettled, and then gives the verdicts of a plain evaluation except for workers that died in that process, whatever the artifact hashes |
| Trials.VerdictMeans | src/xqatexp/optimization/models.py:186-195 | a candidate succeeds if and only if its objective is there and every constraint's metric is there and stands to its bound as the operator says; it fails if and only if its evaluation raises |
| StudyMerge.Best | src/xqatexp/optimization/runner.py:70-71 | the best trial is a succeeded one that none precedes by rank key |
| StudyMerge.BestMeans | src/xqatexp/optimization/models.py:197-208 | no succeeded trial has a better objective than the best one, nor the same with a larger annual return, nor that too with a shallower drawdown, nor all that with a smaller id |
| StudyMerge.BestIsOrderFree | src/xqatexp/optimization/models.py:197-208 | any two completion orders or crash histories with verdicts on the same candidates, whatever their hashes and whichever workers died besides, have the same best candidate with the same metrics, or both have none |
| StudyMerge.ShardsPartition | src/xqatexp/application/optimization.py:582 | every candidate is in exactly one of the modulo shards |
| StudyMerge.Merge | src/xqatexp/application/optimization.py:744-759 | merging raises exactly when two successful records of one id disagree, and otherwise keeps a success whenever there is one |
| StudyMerge.MergeIsOrderFree | src/xqatexp/application/optimization.py:731-759 | merging in any order, with any repetition, gives the same ids, statuses and metrics |
| StudyMerge.ShardedStudyEqualsWhole | src/xqatexp/application/optimization.py:731-759 | finished shards merge without conflict into every candidate with its plain verdict |
| Batches.RunBatch | src/xqatexp/providers/tushare/batch.py:448-555 | under any completion order, blocking, cancellation, interrupt or storage error: one report entry per planned job, at most `workers` in flight, every entry explained by what was stored, fetched or blocked unless the run was cut short for a cause, and complete exactly when all entries are good |
| Batches.RunPool | src/xqatexp/providers/tushare/batch.py:448-519 | the pool loop terminates when fetches do, and without fault or cancellation reports every job once |
| Batches.TakeOne | src/xqatexp/providers/tushare/batch.py:459-500 | one job is taken: not executed if its interface is blocked, else skipped if stored, recovered if unregistered, and put in flight if missing |
| Batches.CollectOne | src/xqatexp/providers/tushare/batch.py:505-518 | one finished fetch is reported once as it ended, and blocks its interface exactly on a denial, registers exactly what it fetched and cancels exactly when unauthorized |
| Batches.Drain | src/xqatexp/providers/tushare/batch.py:520-527 | the interrupt handler reports every fetch in flight as it ended unless a second fault strikes, and blocks nothing |
| Batches.ReportMissing | src/xqatexp/providers/tushare/batch.py:535-540 | exactly the unreported jobs get an interrupted entry |
| Generations.GenerationsIncrease | src/xqatexp/providers/tushare/collection.py:157-183 | over any history of registrations, checkpoints and restarts, files failing validation at any time, with or without the caller-kept list: a later registration of a partition gets a higher generation than every earlier one not lost with an unsaved index |
| Generations.RegistrationLeads | src/xqatexp/providers/tushare/collection.py:157-183 | a new registration is in the index and strictly above every other entry of its partition |
| Generations.RegistrationKeepsTheRest | src/xqatexp/providers/tushare/collection.py:176-183 | a registration adds its entry and drops only entries of its partition that no longer validate |
| Generations.ListsAgree | src/xqatexp/providers/tushare/batch.py:335-337 | the caller-kept list and the pruned index always agree on the highest generation of every partition |
| FinancialRows.ComputeRows | src/xqatexp/research/tables.py:654-807 | the row loop, revision counters and in-place loss column compute the specified rows |
| FinancialRows.CountLosses | src/xqatexp/research/tables.py:770-798 | the streak loop counts consecutive losing periods as specified |
| FinancialRows.NextOpenIsFirst | src/xqatexp/research/preparation.py:37-38 | a record becomes available on the first trading day after its announcement |
| ReportedProfits.RowsComeFromFilings | src/xqatexp/research/tables.py:690-745 | every row publishes a filing: its security, period, actual or else planned announcement date, the first open day after it, and its profit to date to four decimals |
| ReportedProfits.FilingsGiveRows | src/xqatexp/research/tables.py:690-745 | every announced filing with an open day after it is published so |
| ReportedProfits.LooksBackToTheLatest | src/xqatexp/research/tables.py:673-688 | a looked-up quarter is the latest filing announced by then, of the same day the highest update flag, and nothing exactly when none was announced |
| ReportedProfits.ProfitsOfARow | src/xqatexp/research/preparation.py:41-63 | the quarter's profit plus the previous profit to date is the current one; the trailing profit is the profit to date at a year end, exists otherwise exactly when last year's full and same figures are visible, and is the sum of the four latest single quarters whenever the profits to date they need are visible |
| ReportedProfits.ReturnOfARow | src/xqatexp/research/tables.py:726-743 | the return on equity is the latest announced yearly percentage as a fraction, to twelve decimals |
| ReportedProfits.RevisionsCount | src/xqatexp/research/tables.py:707-708 | a revision number is the row's place among those of its security and period |
| ReportedProfits.RevisionsFollowAnnouncements | src/xqatexp/research/tables.py:691-708 | and that place follows the announcement dates |
| ReportedProfits.LossesOfARow | src/xqatexp/research/tables.py:770-798 | the loss streak counts the losing quarters in front, latest period first, over the newest available row of each period, and is unknown when a quarter without a profit ends it |
| PointInTime.LaterRecordsCannotChangeEarlierRows | src/xqatexp/research/tables.py:654-807 | deleting every record that becomes available after a day leaves the rows available by then exactly as they were, revision numbers, TTM and loss streaks included |
| PointInTime.LoopSurvivesCut | src/xqatexp/research/tables.py:690-769 | the main loop on the cut input produces exactly the timely rows of the full one |
| PointInTime.AnnouncementCutIsSafeExactlyWhen | src/xqatexp/research/tables.py:654-807 | cutting every filing history on the announcement date instead leaves the rows announced by then unchanged if and only if the next trading day is the day after, or none follows |
| PointInTime.AnnouncementCutIsNotEnough | src/xqatexp/research/tables.py:776 | otherwise two filings, a loss on the day and a correction the day after, change the earlier row |
| CollectionSweep.ReportsConflict | src/xqatexp/providers/tushare/collection.py:300-315 | the sorted sweep reports a conflict if and only if two entries of compatible scope share a day |
| CollectionSweep.SortKeepsClashes | src/xqatexp/providers/tushare/collection.py:311 | sorting neither hides nor invents a conflict |
| Ranks.AverageRankPercentiles | src/xqatexp/research/factors.py:32-48 | the tie-grouping loop gives each finite value (#less + (#equal - 1)/2)/(n - 1), others nothing |
| Ranks.PercentilesSumToHalf | src/xqatexp/research/factors.py:32-48 | the percentiles of any n >= 2 values, ties included, sum to n/2 |
| Ranks.PercentileIsOrdered | src/xqatexp/research/factors.py:32-48 | percentiles lie in [0, 1], respect strict order and agree on ties |
| Scores.ScoreCrossSection | src/xqatexp/strategy/strategies/weekly_market_guard_rank_v1/scoring.py:30-64 | the accumulation loops compute the weighted score of every security and order it by its float; the first factor without finite values, or with a value that is not a number, raises its error |
| Scores.ScoresAreBalanced | src/xqatexp/strategy/strategies/weekly_market_guard_rank_v1/scoring.py:30-64 | for nonnegative weights summing to one and any directions, scores lie in [0, 1] and sum to n/2, scaled by the weight actually delivered |
| Scores.RanksFollowValues | src/xqatexp/research/factors.py:11-48 | winsorizing before ranking, infinities included, can tie but never reorder values |
| Scores.ClippedMeans | src/xqatexp/research/factors.py:11-29 | values beyond the first and ninety-ninth percent of the finite ones, interpolated linearly between order statistics, become those bounds, and all others stay |
| Scores.DominanceIsRespected | src/xqatexp/strategy/strategies/weekly_market_guard_rank_v1/scoring.py:30-64 | a security no worse under any factor, each in its own direction, never scores lower |
| Scores.RankingIsAPermutation | src/xqatexp/strategy/strategies/weekly_market_guard_rank_v1/scoring.py:59-64 | the ranking is a permutation of the securities by falling score, then id |
| Holdings.SelectHoldings | src/xqatexp/strategy/strategies/weekly_market_guard_rank_v1/strategy.py:44-71 | at most the target count in rank order, held names carried over or newly entered within the entry rank, and nobody passed over except for a better claim |
| Holdings.SelectionIsUnique | src/xqatexp/strategy/strategies/weekly_market_guard_rank_v1/strategy.py:44-71 | those conditions leave exactly one possible selection |
| Holdings.AgesNeverReset | src/xqatexp/strategy/strategies/weekly_market_guard_rank_v1/strategy.py:56-70 | a name held last week and still held is exactly one week older |
| Holdings.EntryRankStays | src/xqatexp/strategy/strategies/weekly_market_guard_rank_v1/parameters.py:112-115 | because the exit rank exceeds the entry rank, a name near enough to enter is near enough to stay at any age |
| Holdings.LeavesExactlyWhen | src/xqatexp/strategy/strategies/weekly_market_guard_rank_v1/strategy.py:50-63 | a held name leaves if and only if it is unranked, or past the protected weeks and behind the exit rank, or past the last week and behind the entry rank |
| Nonoverlap.Count | projects/etf_price_volume/research/conditional.py:27-34 | the loop counts the greedy choice |
| Nonoverlap.CountIsMaximal | projects/etf_price_volume/research/conditional.py:27-34 | that count is attained by a choice with gaps of at least the horizon, and no such choice is larger |
| Nonoverlap.NothingBeatsGreedy | projects/etf_price_volume/research/conditional.py:27-34 | the exchange argument, from any point of the list |
| MaxDrawdown.Scan | src/xqatexp/performance/metrics.py:50-72 | the one-pass drawdown is the worst loss between any two days in order, attained by the reported peak and trough, with the first recovery after it; the trough is the first day with that loss and the peak the first at the highest value before it |
| MaxDrawdown.Analyze | src/xqatexp/performance/metrics.py:35-43 | short or nonpositive samples raise; otherwise the daily returns compound exactly to the cumulative return, beside the drawdown of the scan |
| MaxDrawdown.ReturnsCompound | src/xqatexp/performance/metrics.py:39-43 | the product of one plus each daily return is one plus the cumulative return |
| DailyFigures.PeaksAreHighest | src/xqatexp/backtest/engine.py:222-233 | in every run each trading day is reported once, its peak is the highest of the capital and every close so far, and its drawdown is the fall from that peak |
| DailyFigures.DailyAndAnalyzedDrawdownsAgree | src/xqatexp/reporting/assemblers.py:191-193 | the analyzed maximum drawdown of any run is never deeper than the worst daily drawdown; they are equal if and only if no close before the first one above the capital is further below it, and always where an empty portfolio is worth nothing |
| DailyFigures.FirstCloseIsTheCapital | src/xqatexp/backtest/engine.py:130-173 | where an empty portfolio is worth nothing, every run closes its first day at the initial capital |
| DailyFigures.TurnoversAreFractions | src/xqatexp/backtest/engine.py:222-240 | in every run every reported two-way turnover lies in [0, 1] |

## Left out

- Decimal arithmetic is exact here: the 28-digit context and the float rounding inside quantiles and percentiles are not modelled; the final conversion of a score is any function.
- Dates are ordinals and reporting periods yyyymmdd numbers; invalid calendar dates, which raise in the source, are not modelled.
- Market values are an arbitrary function of day and positions; the lookup of closing prices behind it is not modelled.
- Lot sizes in market rows and lot rules are positive by type.
- Strategy parameter parsing, market regimes, drawdown overlay, budgets per regime and portfolio diagnostics of the weekly strategy; target weights are an input of the engine.
- Orders and signals of the daily advice other than its buy-budget loop, which is the one of `Rebalance`.
- Shares.EveryShareIsPlaced: shares of a split that were not sellable on the record date count as undelivered forever, as the code leaves them.
- Execution.SellFillIsBounded: does not claim that filled plus recorded unfilled is the request; `Orders.ShortfallIsReportedExactlyWhen` says when it is.
- RateLimiter.TryAcquireMany: one pass of the retry loop under all locks; sleeping and cancellation between passes are left out, and the clock of a gate never goes backwards.
- RateLimiter.TokenBucket.Create: leaves out the clock and sleeper arguments.
- BacktestEngines.RunBacktest: the result's copies of the decisions and annotated targets and its tax limitation flag are not part of the model.
- Publisher.Publish: directory suffixes are never reused, malformed names beside the target are left out; a torn record makes recovery raise but loses nothing.
- CollectionSweep.ReportsConflict: the selection of latest entries and the merging of financial records around the sweep are not modelled.
- MaxDrawdown.Analyze: annualized return, volatility, Sharpe and Calmar figures are left out; points come in date order.
- Trials.Study.RunTrials: evaluation is deterministic up to the artifact hash.
- StudyMerge.Merge: study manifests, compatibility digests and re-verification of artifacts are inputs taken for granted.
- Batches.RunBatch: starts after planning, with the calendar and security-list entries given; saving the report cannot fail.
- Generations.GenerationsIncrease: one index; the describing and hashing of artifact files is left out.
- Rebalance.PlanRebalance: targets and positions have distinct ids.
- Batch planning (`plan_requests`), pagination (`query_all`), candidate generation, study backups and the staged research pipeline.
