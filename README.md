# techan trading engine, modelled in Dafny

This project models the trading-simulation engine of the `techan` backtesting library.

**Orders and positions.** An order buys or sells an amount of a security at a price. A long-only position holds what BUY orders bought:

- a further BUY adds to the amount and recomputes the average entry price;
- a SELL reduces the amount and may not sell more than is held;
- every other combination is refused.

**The account.** An account holds cash, a map from security to its open position, and the record of executed orders. Executing an order:

1. checks the funds (strictly: cost basis below cash);
2. applies the order to the held position, or opens one for a BUY, and drops a position once its amount reaches zero;
3. moves the cost basis out of (BUY) or into (SELL) the cash;
4. records the order.

**Trade plans and the allocator.**

- The naive allocator gives every strategy whose rule fires at the current index an equal fraction of the portfolio, capped per position and in total.
- A trade plan turns target fractions into whole-share differences against the open positions. Every held security without a target is liquidated, and all SELLs are placed before all BUYs.

**The backtest.** It replays the strategies candle by candle. At each tick it:

1. prices every strategy at its close;
2. allocates;
3. builds and executes a trade plan;
4. appends an account snapshot and a pricing snapshot to the account history.

The history's profit and percent-gain measures, and the two analyses built on them, are modelled as well.

**Indicators.** The numeric indicators modelled are the rate of change, the windowed percent change, the binary frequency, the local extrema, the maximum drawdown and the supertrend.

**How the model is written.**

- Decimals are `real`, periods are `int`, pricing and allocations are `map<string, real>`.
- A strategy's rule is a function from index to `bool`, and an indicator is the sequence of its values.
- Position, Account, AccountHistory and Backtest are classes whose methods update their fields in place. Each method is proved against a specification function of the old state: `Positions.Apply`, `Accounts.AccountApply`, `TradePlans.ShareDiffs` with `TradePlans.IsTradePlan`, and `Backtests.ExecuteAll`.
- The lemmas beside those functions state what the source promises: cash conservation, positive amounts, plans that reach their targets, and allocations within their caps.
- Go's map iteration order is unspecified. Methods that walk a map pick keys nondeterministically, and their contracts do not depend on the order.
- The local extrema and supertrend indicators fill arrays in place, and are modelled as methods over `array`s proved against a per-index specification.

Where the code and its tests disagree, the model takes one side, case by case:

- **Funds check at exact cost: the code.** `HasSufficientFunds` is strict (account.go:71), while account_test.go:82-84 expects an order costing exactly the cash to pass. `Accounts.FundsCheckExamples` states the strict outcome.
- **Percent gain as a fraction: the code.** `PercentGain` divides by the first equity without scaling by 100 (account_history_analysis.go:16-22), while account_history_analysis_test.go:54-78 expects 100 for a doubling. `Histories.ExampleGrowth` states the fraction.
- **Withdrawal guard: the tests.** `Accounts.Account.Withdraw` refuses a withdrawal larger than the cash, as account_test.go:54-55 expects. The guard as written (account.go:37-50) is modelled separately by `Accounts.WithdrawAsWritten`; see "## Findings".
- **Deposit and equity: the tests.** `Accounts.Account.Deposit` raises the cash and `Accounts.Account.Equity` adds the market values, as the tests expect. As written, account.go:33 and account.go:80-83 discard the result of the decimal addition; see "## Left out".

## Model

| member | source | states |
|---|---|---|
| Orders.CostBasis | order.go:52-54 | The cost of an order is zero when amount or price is zero and nonnegative when both are |
| Orders.CostBasisIgnoresSideAndSecurity | order.go:52-54 | Two orders with the same amount and price cost the same, whatever their side and security |
| Orders.CostBasisExample | order_test.go:10-22 | Ten units at ten cost one hundred |
| FinUtils.CashToShares | finutils.go:9-15 | The share count is a whole number; zero for a zero price or non-positive cash; its sign follows the price's when cash is positive |
| FinUtils.SharesBounds | finutils.go:14 | At positive price p and cash c, the count n is the largest affordable: n*p <= c < (n+1)*p |
| FinUtils.UniqueShares | finutils.go:14 | Only one whole number satisfies those bounds |
| FinUtils.Exact | finutils.go:9-15 | Any whole number within those bounds is the share count |
| FinUtils.CashToSharesExamples | finutils_test.go:9-24 | 100 at 10 gives 10 shares, 109.99 at 10 gives 10, 100 at 10.01 gives 9, zero price or negative cash gives 0 |
| Positions.Apply | position.go:49-77 | An order succeeds exactly when the position is a BUY and the order is a BUY or sells no more than is held; failures are OverSell or UnsupportedOperation; success marks the position at the order price, adds or subtracts the amount, and a SELL keeps the average entry price |
| Positions.BuyKeepsCost | position.go:50-56 | After a BUY on a BUY, average entry price times amount equals the old cost plus the order's cost |
| Positions.SellAllCloses | position.go:59-73 | Selling exactly the held amount succeeds and closes the position |
| Positions.AverageBetween | position.go:50-56 | The new average entry price lies between the lowest and highest of the old average and the order price |
| Positions.ApplyBuys | position.go:50-56 | A run of BUYs on a BUY position keeps it a BUY position of the same security with a positive amount |
| Positions.BuysKeepAverageInRange | position.go:50-56 | After any run of BUYs, the average entry price stays within the range of all prices paid and the amount is the old amount plus all bought |
| Positions.FreshBuysKeepAverageInRange | position.go:28-37 | A position opened by a BUY and grown by BUYs has an average entry price within the range of prices paid and holds the total bought |
| Positions.Closed | position.go:80-82 | A position is closed when its amount is zero; a closed position is worth nothing and has no unrealized gain, and at a nonzero price it is closed exactly when its market value is zero |
| Positions.MarketValue | position.go:90-92 | An empty position is worth nothing; a position with nonnegative amount and price has a nonnegative market value |
| Positions.ValueIsCostPlusGain | position.go:90-97 | The market value is what the amount cost at the average entry price plus the unrealized gain |
| Positions.UnrealizedGain | position.go:95-97 | The gain is amount times (price less average entry price); for a nonnegative amount it is nonnegative exactly when the position is empty or priced at or above its entry |
| Positions.Snapshot | position.go:100-109 | A snapshot copies security, side, amount and price and records market value less cost as the unrealized gain |
| Positions.ExecuteOrderExamples | position_test.go:32-114 | Adding two at three to two at two gives four at an average of 2.5; selling one or two at three keeps the average entry price, and selling two closes the position; selling three fails with OverSell; a SELL position refuses orders |
| Positions.Position.constructor | position.go:28-37 | A new position takes security, side and amount from the order and both prices from the order price |
| Positions.Position.ExecuteOrder | position.go:49-77 | The position's new state is the one Apply gives; on failure it reports Apply's error and the position is unchanged |
| Positions.Position.UpdatePrice | position.go:85-87 | Only the mark price changes, to the new price |
| Accounts.MarketValues | account.go:79-81 | The market-value map has exactly the held securities as keys |
| Accounts.FundsSuffice | account.go:66-72 | A SELL always passes; a BUY passes exactly when its cost basis is strictly below the cash, and then leaves positive cash |
| Accounts.FundsCheckExamples | account_test.go:72-89 | At the test suite's cash levels for a BUY costing four: refused with 0 and 3 and, the check being strict, with 4 (where the test suite expects a pass); passed with 104, and also with 5 |
| Accounts.WithdrawResult | account.go:37-50 | A withdrawal succeeds exactly when it does not exceed the cash, leaving cash less the amount (nonnegative); otherwise InsufficientFunds |
| Accounts.WithdrawAsWritten | account.go:37-50 | As written, the withdrawal succeeds exactly when the cash before it is nonnegative, and then leaves cash less the amount |
| Accounts.WithdrawAsWrittenOverdraws | account.go:38-48 | With cash 1 a withdrawal of 1.01 succeeds as written, leaving -0.01, and is refused by the corrected withdrawal |
| Accounts.ApplyToHoldings | account.go:98-119 | A held position takes the order and fails with its error; a closed position is dropped; an unheld security is opened by a BUY and a SELL of it fails with NoPositionToSell; every other position is unchanged |
| Accounts.AccountApply | account.go:87-131 | Executing an order fails with InsufficientFunds when the funds check fails, otherwise as the holdings do; success moves the cost basis out of cash for a BUY and into cash for a SELL, records the order, and applies it to the holdings |
| Accounts.ApplyKeepsPositive | account.go:87-131 | Orders of positive amount keep every open position's amount positive |
| Accounts.CashConservation | account.go:121-126 | A successful order changes the cash by exactly its cost basis, in the direction of its side |
| Accounts.BuyKeepsCashPositive | account.go:88-96 | After a successful BUY the cash is positive |
| Accounts.RefusedOrderExamples | account_test.go:106-129 | A BUY with no cash is refused with InsufficientFunds and a SELL of an unheld security with NoPositionToSell |
| Accounts.FirstBuyOpens | account.go:110-112 | A BUY the cash covers, into an account with no positions, opens exactly that position, lowers the cash by its cost and records it |
| Accounts.AddToPositionExample | account_test.go:151-182 | Two BUYs of one at one and at three from 40 leave 36 in cash and two shares at an average entry price of two |
| Accounts.SellWholeOpening | account.go:98-128 | A SELL of the whole amount of the only, just-opened position removes it, adds its cost basis to the cash and records it |
| Accounts.SellAllExample | account_test.go:216-244 | A BUY of three at one and a SELL of all three at three from 40 close the position and leave 46 in cash |
| Accounts.SnapshotsCoverStep | account.go:142-145 | Adding the snapshot of one more held position, keyed by its own security, keeps one distinct snapshot per position visited |
| Accounts.SnapshotSize | account.go:142-145 | An account snapshot has one position snapshot per open position |
| Accounts.SnapshotIdempotent | account.go:135-148 | Two snapshots of the same state agree on period, cash, equity and the set of position snapshots |
| Accounts.SnapshotEntries | account.go:142-145 | Every position snapshot of one snapshot appears in any other snapshot of the same state |
| Accounts.StatesOf | account.go:11-15 | The state view of the positions map has the same keys and each position's current state |
| Accounts.Account.Holdings | account.go:11-15 | The holdings view has exactly the account's securities as keys |
| Accounts.Account.constructor | account.go:18-23 | A new account has no cash, no positions and an empty trade record |
| Accounts.Account.HasSufficientFunds | account.go:66-72 | Against the account's cash: a SELL always passes, a BUY passes exactly when its cost basis is strictly below the cash |
| Accounts.Account.OpenPosition | account.go:26-29 | A position is found exactly when the security is held, and it is that security's position |
| Accounts.Account.Deposit | account.go:32-34 | The cash rises by the deposit; positions, holdings and trade record are unchanged |
| Accounts.Account.Withdraw | account.go:37-50 | The cash becomes WithdrawResult's value or stays, with InsufficientFunds, when the withdrawal exceeds it; nothing else changes |
| Accounts.Account.UpdatePrices | account.go:54-61 | Every held position with a price in the map is marked at that price, every other one is unchanged |
| Accounts.Account.Equity | account.go:75-84 | The equity is the cash plus the market value of every open position |
| Accounts.Account.ExecuteOrder | account.go:87-131 | The account's new state is AccountApply's result, or on failure it reports that error and is unchanged |
| Accounts.Account.Settle | account.go:121-128 | The cash moves by the cost basis according to the side and the order is appended to the trade record; holdings are unchanged |
| Accounts.Account.ChangePosition | account.go:98-119 | The holdings become ApplyToHoldings' result, or stay on failure with its error; cash and trade record are unchanged |
| Accounts.Account.UpdateHeld | account.go:101-109 | A held position takes the order and is removed from the map once closed, as ApplyToHoldings says |
| Accounts.Account.ExportSnapshot | account.go:135-148 | The snapshot carries the period, the cash, the equity and exactly one snapshot per open position |
| TradePlans.AllocationDeltasStep | trade_plan.go:18-35 | Adding a security to the allocation pass records its nonzero share difference and omits a zero one |
| TradePlans.LiquidationsStep | trade_plan.go:37-42 | A held security without a difference is given a difference selling its whole amount |
| TradePlans.ShareDiffsMeaning | trade_plan.go:14-42 | A security has a difference exactly when it is rebalanced (priced target differs from held) or held; holding plus difference is the target for rebalanced securities and zero for the rest |
| TradePlans.ZeroDeltaIsLiquidated | trade_plan.go:32-42 | A held security already at its target is liquidated in full, because its zero difference is dropped and then filled in as a sale |
| TradePlans.OrderFor | trade_plan.go:47-58 | The order for a difference names its security, has a nonnegative amount whose signed value by side is the difference, and a positive amount for a nonzero difference |
| TradePlans.PlanSize | trade_plan.go:44-67 | A plan has exactly one order per security with a difference |
| TradePlans.PlansAgree | trade_plan.go:44-67 | Any two plans for the same differences hold the same orders, whatever order the map was walked in |
| TradePlans.PlanReachesTargets | trade_plan.go:14-67 | Executing each order of the plan brings its security's holding to its target, or to zero when liquidated; with positive holdings every order has a positive amount |
| TradePlans.MixedEquity | trade_plan_test.go:173-224 | Two in cash with five ONE at one and one THREE at three make an equity of ten |
| TradePlans.MixedShareDiffs | trade_plan_test.go:173-224 | With targets ONE 0.6 and TWO 0.3 at prices 1, 2, 3 and equity ten, the differences are ONE +1, TWO +1 (1.5 rounded down) and THREE -1 |
| TradePlans.MixedPlanOrders | trade_plan_test.go:205-220 | A plan for those differences has three orders: SELL THREE 1 at 3 first, then BUY ONE 1 at 1 and BUY TWO 1 at 2 in either order |
| TradePlans.MixedPlanExample | trade_plan_test.go:173-224 | Every plan for that test case's account and targets is those three orders |
| TradePlans.SinglePositionPlan | trade_plan_test.go:32-53 | Half of ten in cash at price one, with nothing held, gives exactly the plan BUY ONE 5 at 1 |
| TradePlans.MissingPricingExample | trade_plan_test.go:19-31 | Targets ONE and TWO with only ONE priced fail with MissingPricingData |
| TradePlans.CreateTradePlan | trade_plan.go:14-70 | Fails with MissingPricingData exactly when some allocated security has no price; otherwise returns a plan for the share differences: one order per difference, SELLs first |
| TradePlans.AllocationDiffs | trade_plan.go:17-35 | Fails exactly when an allocated security is unpriced; otherwise returns the nonzero target-less-held differences of the allocated securities |
| TradePlans.SecurityDiff | trade_plan.go:19-30 | The share difference of one allocated security: its target whole shares less what is held |
| TradePlans.AddLiquidations | trade_plan.go:37-42 | The differences completed with a full sale of every held security that has none |
| TradePlans.JoinPlan | trade_plan.go:67 | Sells followed by buys, covering the differences between them, form a plan |
| TradePlans.SplitSellsAndBuys | trade_plan.go:44-67 | The orders built from the differences form a plan: one per security, each its OrderFor, SELLs first |
| Strategies.Strategy.LastIndex | strategy.go:14-16 | The last index is one less than the number of candles, and inside the candles when there are any |
| Strategies.SignalRule | allocator_test.go:31-33 | A rule read off a list of signals is satisfied at an index exactly when the signal there is set |
| Allocators.NewNaiveAllocator | allocator.go:27-46 | Both caps are clamped to at most one and the single cap to at most the total cap; caps within bounds are kept |
| Allocators.ConstructorExamples | allocator_test.go:10-26 | (0.2, 1.0) is kept, (0.9, 0.8) becomes (0.8, 0.8), (1.1, 1.0) becomes (1.0, 1.0), (0.3, 1.8) becomes (0.3, 1.0) |
| Allocators.Triggers | allocator.go:54-58 | At most one trigger per strategy |
| Allocators.TriggersMeaning | allocator.go:54-58 | A security is triggered exactly when some strategy of it has its rule satisfied at the index |
| Allocators.EntriesMeaning | allocator.go:89-97 | A security is an entry exactly when some strategy of it is satisfied at the index and at the index before |
| Allocators.FractionBounds | allocator.go:64-67 | The fraction is at most the single cap, times the trigger count it is at most the total cap, and it meets one of the two |
| Allocators.AllocationKeys | allocator.go:50-74 | A security is allocated exactly when it is triggered |
| Allocators.AllocationFractions | allocator.go:64-71 | Every allocated security gets the same fraction, computed from the number of triggers |
| Allocators.NoTriggersNoAllocation | allocator.go:60-62 | When no rule is satisfied the allocation is empty |
| Allocators.AllocationWithinTotal | allocator.go:50-74 | The allocated fractions add up to at most the total cap |
| Allocators.NaiveAllocator.Allocate | allocator.go:50-74 | The loop computes exactly the allocation specified by Allocation |
| Allocators.NaiveAllocator.AllocateWithAccount | allocator.go:80-118 | The loop computes exactly the account-aware allocation |
| Allocators.WithAccountAtFirstIndex | allocator.go:81-83 | At index 0 the account-aware allocation is the plain one |
| Allocators.WithAccountMeaning | allocator.go:85-117 | After index 0 a security is allocated exactly when it is triggered and either held or an entry, at the plain allocation's fraction |
| Allocators.WithAccountIsSubAllocation | allocator.go:80-118 | The account-aware allocation is a sub-map of the plain one |
| Allocators.Example | allocator_test.go:28-58 | The test suite's three strategies give ONE at 0.4; all three at a third; ONE and TWO at 0.4; nothing |
| Allocators.FractionsNeedNotAddUpToOne | allocator.go:5-15 | At the first example index the allocation adds up to 0.4, not to one as the doc comment says |
| Histories.AccountHistory.constructor | account_history.go:12-14 | A new history has no snapshots, no prices and no benchmark |
| Histories.AccountHistory.ApplySnapshot | account_history_test.go:11-32 | Snapshots whose periods agree are appended as a pair; otherwise SnapshotPeriodMismatch and nothing changes |
| Histories.AccountHistory.LastIndex | account_history_test.go:34-44 | The last index is one less than the number of snapshots |
| Histories.AccountHistory.PriceAtIndex | account_history_test.go:46-77 | A price is found exactly when the security is priced in that snapshot, and it is that price |
| Histories.AccountHistory.EquityIndicator | account_history_test.go:79-104 | The equity indicator has one value per snapshot, its equity |
| Histories.AccountHistory.TotalProfit | account_history_analysis.go:8-13 | First equity plus profit is the last equity; a single snapshot gives zero |
| Histories.AccountHistory.PercentGain | account_history_analysis.go:16-22 | Zero for a zero first equity; otherwise gain times first equity is the total profit |
| Histories.AccountHistory.BenchmarkBuyHoldPercentGain | account_history_analysis.go:40-51 | Zero without both benchmark prices; otherwise gain times start price is the price change |
| Histories.AccountHistory.BenchmarkBuyHoldTotalProfitAsWritten | account_history_analysis.go:25-38 | Zero without both benchmark prices |
| Histories.AccountHistory.BenchmarkBuyHoldTotalProfit | account_history_analysis.go:25-38 | Zero without both benchmark prices |
| Histories.Changes | account_history_test.go:79-104 | The changes between consecutive equities number one fewer than the equities |
| Histories.ChangesTelescope | account_history_analysis.go:8-13 | The changes add up to last value less first value |
| Histories.ProfitIsSumOfChanges | account_history_analysis.go:8-13 | The total profit is the sum of the per-snapshot equity changes |
| Histories.PercentGainSign | account_history_analysis.go:16-22 | With a positive first equity, the gain is positive (negative) exactly when the last equity is above (below) the first |
| Histories.BuyHoldAsWrittenScalesWithPrice | account_history_analysis.go:35-37 | The as-written benchmark profit is the start price times the intended one |
| Histories.BuyHoldProfitIsHoldingValue | account_history_analysis.go:25-38 | The benchmark profit is what the first equity, put into the benchmark at its start price, gains by the end price |
| Histories.BuyHoldAsWrittenOverstates | account_history_analysis.go:35-37 | Equity 100 and a benchmark from 10 to 11 give 100 as written and 10 as intended |
| Histories.ExampleGrowth | account_history_analysis_test.go:11-31 | Equities 1 then 2 give profit 1 and gain 1 |
| Histories.ExampleLoss | account_history_analysis_test.go:32-35 | A last equity of 0 after 1 gives profit -1 and gain -1 |
| Histories.ExampleZeroStart | account_history_analysis_test.go:37-52 | A zero first equity gives gain 0 |
| Analyses.Analysis.Analyze | analysis.go:19-39 | Total-profit analysis agrees with the history's total profit and percent-gain analysis with its percent gain |
| Analyses.GainIsProfitPerEquity | analysis.go:30-39 | The percent-gain analysis times the first equity is the total-profit analysis |
| Backtests.ExecuteAll | backtest.go:48-50 | Executing orders of positive amount one by one, skipping failures, keeps every held amount positive |
| Backtests.TradeRecordGrows | backtest.go:48-50 | Executing a plan only appends orders of the plan to the trade record, at most one per order |
| Backtests.FailingOrdersChangeNothing | backtest.go:48-50 | Orders that all fail the funds check leave the account state unchanged |
| Backtests.PricingMeaning | backtest.go:36-39 | The tick's pricing holds exactly the strategies' securities, each at a close of its strategy at that tick, the last such strategy winning |
| Backtests.PricingOfMeaning | backtest.go:37-39 | The same for the first n strategies, as the loop builds it |
| Backtests.AllocationsArePriced | backtest.go:36-45 | Every allocated security is priced, so the tick never fails for missing pricing |
| Backtests.Backtest.constructor | backtest.go:14-32 | Tick 0, the given strategies, allocator and account, and a history of one snapshot of the untouched account dated one period before the first candle with empty pricing |
| Backtests.Backtest.CurrentPricing | backtest.go:36-39 | The loop builds exactly the tick's pricing |
| Backtests.Backtest.RecordSnapshot | backtest.go:52-56 | Appends one snapshot of the unchanged account and the pricing for the period |
| Backtests.Backtest.ExecutePlan | backtest.go:48-50 | The account's new state is ExecuteAll of the plan |
| Backtests.Backtest.TradeAndLog | backtest.go:48-56 | Executes the plan and appends a snapshot of the resulting account |
| Backtests.Backtest.ExecuteTick | backtest.go:35-59 | Fails with MissingPricingData exactly when an allocation is unpriced, changing nothing; otherwise executes a plan for the allocation's share differences and appends a snapshot of the resulting account and the tick's pricing |
| Backtests.Backtest.AdvanceTick | backtest.go:62-64 | The tick rises by one and nothing else changes |
| Backtests.Backtest.Run | backtest_test.go:27-46 | Runs every tick to the last candle without error, ending at the last index with one snapshot more per candle |
| RateOfChange.Calculate | indicator_rate_of_change.go:16-25 | Zero before the first full window or for a window under two; otherwise the value times the window length is the change across the window |
| RateOfChange.SignOfChange | indicator_rate_of_change.go:16-25 | The rate of change is positive, negative or zero exactly when the change across the window is |
| RateOfChange.ConstantSeries | indicator_rate_of_change.go:16-25 | A constant series has rate of change zero everywhere |
| RateOfChange.Example | indicator_rate_of_change_test.go:9-31 | The test suite's series gives 0, 0, 1/3, 0, -1/3, 0, 1/3, 0, -1/3 |
| WindowedPercentChange.Lookback | indicator_windowed_percent_change.go:26-29 | The lookback is the window less one, or the index when that is smaller |
| WindowedPercentChange.Calculate | indicator_windowed_percent_change.go:21-45 | Zero for a window under two; from a zero start +100, -100 or 0 by the sign of the end; otherwise the value times the start is one hundred times the change |
| WindowedPercentChange.FirstIndexIsZero | indicator_windowed_percent_change.go:26-44 | The first index always gives zero |
| WindowedPercentChange.PositiveStartSign | indicator_windowed_percent_change.go:34-44 | From a positive start the change is positive exactly when the end is above the start |
| WindowedPercentChange.Example | indicator_windowed_percent_change_test.go:9-26 | The test suite's series gives 0, 50, 100, 0, -50, 0, 100, 0, -50 |
| BinaryFrequency.Calculate | indicator_binary_frequency.go:23-39 | The loops count exactly the values above zero across the series over the window ending at the index |
| BinaryFrequency.PositiveCountBounds | indicator_binary_frequency.go:31-35 | At one index at most one count per series |
| BinaryFrequency.WindowCountBounds | indicator_binary_frequency.go:30-36 | Over a range, at most one count per series per index |
| BinaryFrequency.FrequencyBounds | indicator_binary_frequency.go:23-39 | The frequency is nonnegative and at most the number of indices counted times the number of series |
| BinaryFrequency.AllPositiveCountsAll | indicator_binary_frequency.go:30-36 | When every value in range is positive, every one is counted |
| BinaryFrequency.AllPositiveAtIndex | indicator_binary_frequency.go:31-35 | When every series is positive at an index, all of them are counted |
| BinaryFrequency.SingleSeries | indicator_binary_frequency.go:30-36 | For one series the count is the number of its positive values in range |
| BinaryFrequency.ExampleGrowing | indicator_binary_frequency_test.go:9-26 | The test suite's series gives 0, 0, 1, 2 at the first four indices |
| BinaryFrequency.ExampleSliding | indicator_binary_frequency_test.go:9-26 | ... and 2, 1, 0, 1, 1 at the next five |
| LocalExtrema.MaxIndexIn | indicator_local_extrema.go:53-62 | The index of a maximum of the window, the latest of equal maxima |
| LocalExtrema.MinIndexIn | indicator_local_extrema.go:64-73 | The index of a minimum of the window, the latest of equal minima |
| LocalExtrema.FindMaxIndexInWindow | indicator_local_extrema.go:53-62 | The loop returns the start for an empty window and MaxIndexIn otherwise |
| LocalExtrema.FindMinIndexInWindow | indicator_local_extrema.go:64-73 | The loop returns the start for an empty window and MinIndexIn otherwise |
| LocalExtrema.WindowStart | indicator_local_extrema.go:32-35 | The window start is the index less the window plus one, never below zero |
| LocalExtrema.TurnNeedsWindow | indicator_local_extrema.go:27-43 | The rate of change can only turn at an index with a full window inside the series |
| LocalExtrema.Step | indicator_local_extrema.go:29-43 | One step keeps the length of the marks |
| LocalExtrema.Marks | indicator_local_extrema.go:22-44 | The marks have the requested length and every mark is -1, 0 or +1 |
| LocalExtrema.MarkedInWindow | indicator_local_extrema.go:28-44 | Every nonzero mark lies in the window of some step |
| LocalExtrema.NewLocalExtrema | indicator_local_extrema.go:19-47 | The array filled in place holds exactly the specified marks |
| LocalExtrema.NewZeroed | indicator_local_extrema.go:22-25 | A fresh array of zeros of the requested length |
| LocalExtrema.ApplyStep | indicator_local_extrema.go:29-43 | One in-place step takes the marks from step i to step i+1 |
| LocalExtrema.NoStepsNoMarks | indicator_local_extrema.go:22-28 | Before the first full window no mark is set |
| LocalExtrema.ShortWindowMarksNothing | indicator_local_extrema.go:16-25 | A window under two marks nothing |
| LocalExtrema.NoTurnKeeps | indicator_local_extrema.go:37-43 | A step where the rate of change does not turn changes no mark |
| LocalExtrema.TurnUpMarks | indicator_local_extrema.go:37-39 | A turn up marks the window's minimum with -1 |
| LocalExtrema.TurnDownMarks | indicator_local_extrema.go:40-42 | A turn down marks the window's maximum with +1 |
| LocalExtrema.ExampleTurns | indicator_local_extrema_test.go:9-26 | Where the test suite's series turns up and down with a window of three |
| LocalExtrema.ExampleMinima | indicator_local_extrema_test.go:9-26 | The window minima picked there |
| LocalExtrema.ExampleMaxima | indicator_local_extrema_test.go:9-26 | The window maxima picked there |
| LocalExtrema.ExampleFirstTurns | indicator_local_extrema_test.go:9-26 | The marks after the first turns |
| LocalExtrema.Example | indicator_local_extrema_test.go:9-26 | The test suite's series gives a minimum at 0 and 5 and a maximum at 2 and 10 |
| MaximumDrawdown.Track | indicator_maximum_drawdown.go:13-43 | The running maximum drawdown is never negative, and a drawdown in progress has a nonzero peak |
| MaximumDrawdown.Drawdowns | indicator_maximum_drawdown.go:21-40 | One value per index scanned |
| MaximumDrawdown.NewMaximumDrawdown | indicator_maximum_drawdown.go:13-43 | The loop appends exactly the specified running maxima over the local-extrema marks |
| MaximumDrawdown.Nondecreasing | indicator_maximum_drawdown.go:30-32 | The running maximum drawdown never decreases |
| MaximumDrawdown.DrawdownsMonotone | indicator_maximum_drawdown.go:21-40 | The indicator values are nonnegative and nondecreasing |
| MaximumDrawdown.ZeroBeforeFirstPeak | indicator_maximum_drawdown.go:24-27 | Before the first peak nothing is tracked and the value is zero |
| MaximumDrawdown.MaxIsAttained | indicator_maximum_drawdown.go:21-40 | The running maximum is zero or equal to one of the falls counted from the last peak before it, so with FallIsBounded it is the largest counted fall |
| MaximumDrawdown.FallIsBounded | indicator_maximum_drawdown.go:27-37 | Every fall from the last peak seen during a drawdown is at most the later running maximum |
| MaximumDrawdown.ExampleFirstFall | indicator_maximum_drawdown_test.go:9-30 | After the first peak and valley the maximum is 250/3 |
| MaximumDrawdown.ExampleSecondFall | indicator_maximum_drawdown_test.go:9-30 | At the end the maximum is 87.5 |
| MaximumDrawdown.ExamplePlateau | indicator_maximum_drawdown_test.go:9-30 | Between the valley and the next peak the maximum stays at 250/3 |
| MaximumDrawdown.ExampleTrack | indicator_maximum_drawdown_test.go:9-30 | Every running value agrees with the test suite's expected value |
| MaximumDrawdown.ExampleOnMarks | indicator_maximum_drawdown_test.go:9-30 | On the test suite's marks the indicator is the expected sequence |
| MaximumDrawdown.Example | indicator_maximum_drawdown_test.go:9-30 | On the test suite's series with window three the indicator is the expected sequence |
| Supertrend.BandsAt | indicator_supertrend.go:34-76 | The trend line always sits on the final upper or the final lower band |
| Supertrend.NewSupertrend | indicator_supertrend.go:18-79 | The array filled in place holds, at every index, the specified trend line |
| Supertrend.Step | indicator_supertrend.go:50-75 | One step from the previous final bands gives exactly the specified bands at the index |
| Supertrend.BasicBandsWidth | indicator_supertrend.go:35-41 | The basic bands are centred on the mid price, twice the multiple of the range apart |
| Supertrend.FirstIndex | indicator_supertrend.go:43-47 | At index 0 the bands are the basic ones and the trend line is the lower band |
| Supertrend.UpperStep | indicator_supertrend.go:53-57 | While the previous close stays at or below it, the upper band does not rise |
| Supertrend.LowerStep | indicator_supertrend.go:59-63 | While the previous close stays at or above it, the lower band does not fall |
| Supertrend.UpperRatchet | indicator_supertrend.go:53-57 | Over a stretch of closes at or below it the upper band never rises |
| Supertrend.LowerRatchet | indicator_supertrend.go:59-63 | Over a stretch of closes at or above it the lower band never falls |
| Supertrend.BandsWidenOnlyOnBreak | indicator_supertrend.go:53-63 | A band moves away from the price only after the previous close broke through it |
| Supertrend.TrendSticks | indicator_supertrend.go:69-75 | Without a crossing the trend stays on the band it was on |
| Supertrend.TrendFlips | indicator_supertrend.go:65-68 | A close breaking up through the upper band puts the trend on the lower band; one breaking down through the lower band puts it on the upper band |
| Supertrend.Example | indicator_supertrend_test.go:5-17 | The test suite's candles give 1.5, 2.5, 3.5, 8.5 |

## Left out

- Order metadata (order type, time in force, execution time) is not modelled; it plays no part in execution.
- Decimals are exact reals. `CashToShares` converts through a 64-bit float before taking the floor (finutils.go:14), and that rounding is not modelled.
- Go's map iteration order is not modelled: the methods that walk a map pick keys nondeterministically and their contracts hold for every order.
- Accounts.Account.Deposit: models the deposit as raising the cash, as account_test.go:34-40 expects. As written (account.go:33) the sum's result is discarded, so the cash changes only if the decimal library's addition updates its receiver; that library is not part of this model.
- Accounts.Account.Equity: models the equity as cash plus every position's market value, as account_test.go:91-104 expects. As written (account.go:80) each sum's result is discarded, with the same dependence on the decimal library.
- Positions.Apply: requires that a BUY onto a BUY position does not bring the total amount to zero, where the source would divide by zero (zero by zero for positive amounts, a nonzero cost by zero when a negative-amount BUY cancels the held amount).
- Positions.Position.IsClosed, Positions.Position.UnrealizedEquity and Positions.Position.ExportSnapshot have no contracts of their own. They read the state through the specification functions `Closed`, `MarketValue` and `Snapshot`.
- TradePlans.OrderFor: an unpriced held security is sold at price zero in a trade plan. This is a modelling assumption: trade_plan.go:57 reads the missing map entry, which gives the decimal library's zero value, and that library is not part of this model, so it is taken to behave as the number 0.
- Allocators: the `Allocator` and `Analysis` interfaces are fixed to their concrete types (`NaiveAllocator`; the two analyses as one datatype).
- Allocators.AllocationWithinTotal: requires a nonnegative total cap. With a negative cap the fractions are negative and the bound does not hold.
- The allocator doc comment says allocation fractions add up to one (allocator.go:5-7, 13-15). The code only caps them, and `Allocators.FractionsNeedNotAddUpToOne` shows a sum of 0.4.
- Strategies are reduced to a security, candles of period and close, and a rule. Their indicator maps, time series library, and rules other than a plain signal function (rule_stop.go) are not part of this model.
- BinaryFrequency.Calculate: the threshold parameter is stored but never used by the source (indicator_binary_frequency.go:15-21, 31-35); values are compared with zero.
- Supertrend: the average true range, high, low and close indicators and the time series are not part of this model. Their values are inputs to the model.
- Supertrend.NewSupertrend: the basic-band arrays are written but carry no invariant, because only the final bands and the trend are read back.
- MaximumDrawdown.NewMaximumDrawdown: requires the length to be within the series, and every peak the scan meets to be nonzero, where the source would divide by zero.
- Histories: `NewAccountHistory`, `ApplySnapshot`, `LastIndex`, `PriceAtIndex`, `AccountEquityAsIndicator` and the benchmark field are not in account_history.go. Their contracts follow the repository's tests.
- The annualized return, annualized volatility, monthly gains and the YAML exports of the history (file I/O and calendar arithmetic) are left out.
- Backtests.Backtest.Run: not in backtest.go. It is modelled from backtest_test.go:27-46 as ticking through every candle.
- Backtests.ExecuteAll: assumes Go 1.22 or later loop semantics. backtest.go:48-49 passes `&order`, the address of the range variable, to `ExecuteOrder`, and account.go:14 and account.go:128 keep the trade record as a list of order addresses (`[]*Order`). Before Go 1.22 every entry recorded in one tick would refer to the one loop variable and read as the plan's last order; the model appends each order as a distinct value. The Go version is not stated in the files modelled.
- Backtests.TradeRecordGrows: states that the record grows by distinct order values, under the same Go 1.22 assumption; aliasing of those addresses in the trade record is not modelled.
- Backtests.Backtest.ExecuteTick: requires every held amount to be positive (kept by every tick) so that no plan order hits the zero-amount division above. The order errors it ignores (backtest.go:48-50) are modelled as skipped orders. Its plan is a ghost out-parameter used only to state the result. Its missing-pricing branch is kept, and `Backtests.AllocationsArePriced` shows it cannot arise.
- The backtest prices and allocates with `Allocate`, not `AllocateWithAccount`, as backtest.go:41 does.

## Findings

| source | as written | input that shows it | evidently intended | confidence | as-written member | corrected member |
|---|---|---|---|---|---|---|
| account.go:37-50 | The guard checks the cash before the withdrawal is subtracted, so any withdrawal from nonnegative cash goes through | cash 1.0, withdraw 1.01: succeeds and leaves -0.01 (account_test.go:54-55 expects an error) | Refuse a withdrawal that would leave negative cash | not executed; assumes the library's subtraction leaves its receiver unchanged | Accounts.WithdrawAsWritten | Accounts.WithdrawResult |
| account_history_analysis.go:35-37 | The benchmark buy-and-hold profit is the first equity times the benchmark's price change | first equity 100, benchmark price 10 then 11: gives 100 | The first equity times the benchmark's relative change (10 here) | not executed | Histories.AccountHistory.BenchmarkBuyHoldTotalProfitAsWritten | Histories.AccountHistory.BenchmarkBuyHoldTotalProfit |
