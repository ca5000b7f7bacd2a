# MACD crossover backtest, modelled in Dafny

This project models `main.py`, a small back-tester for the MACD trading
indicator. It has four parts:

- `EMA(samples, N, offset)`: a finite-window exponential moving average,
  re-normalised by the sum of its weights.
- `create_MACD`: the fast (12-bar) average minus the slow (26-bar) average.
- `create_SIGNAL`: the 9-bar average of MACD.
- `MACD_simulation`: walks the bars from index 26. It sells when MACD drops
  below SIGNAL and buys when MACD rises above it. Order sizes follow the
  buying and selling multipliers. Whole-unit (indivisible) trading rounds the
  quantity to the nearest integer. Cash amounts are rounded to cents. At the
  end, the holding is valued at the last price and the profit against the
  starting budget is reported.

Modules, one per concern:

- `Common` (common.dfy): the two errors the program can raise (`IndexError`,
  `ZeroDivisionError`), a `Result` type, and Python's list subscript,
  including negative indices.
- `Rounding` (rounding.dfy): Python's `round(x)` and `round(x, 2)`, both half
  to even, on exact reals.
- `MovingAverage` (ema.dfy): the average as a function (`EmaOf`) and as the
  source's accumulation loop (`Ema`), proved equal to it.
- `Indicators` (indicators.dfy): the MACD and SIGNAL series as functions, and
  the two building loops (`CreateMacd`, `CreateSignal`) proved equal to them.
- `Orders` (orders.dfy): the configuration and the sizing of sells and buys.
- `Simulation` (simulation.dfy): the simulation as a bar-by-bar function
  (`Step`, `Run`, `MacdSimulation`) and as the source's loop (`Simulate`), proved
  equal to it.
- `Backtest` (backtest.dfy): the three stages chained over a price list.

Errors are values. A subscript outside the list is `Err(IndexOutOfRange)`;
a zero price at a buy, or a zero starting budget in the percentage, is
`Err(DivisionByZero)`. Instead of plotting and printing, the simulation
returns a `Report` with:

- the trades (bar, side, price);
- the final budget;
- the final holding;
- the profit;
- the profit percentage.

## Model

| member | source | states |
|---|---|---|
| Common.At | main.py:26 | the definition of Python's `s[j]`: the element, counting from the end for a negative j, or IndexError outside `-len(s) .. len(s)-1`; `MovingAverage.Ema` and `Indicators.CreateMacd` state the resulting failure conditions |
| MovingAverage.Pow | main.py:26-27 | the weight `(1-alpha)**i` is non-negative, and at most 1 when the decay lies in [0, 1] |
| MovingAverage.Decay | main.py:22 | `1 - alpha` with `alpha = 2/(N+1)` lies in [0, 1) for every period of one or more, and is -1 for period 0 |
| MovingAverage.Weights | main.py:25-27 | the average uses N+1 weights; the first is 1 and each lies in [0, 1] |
| MovingAverage.TotalWeightAtLeastOne | main.py:27-28 | the denominator is at least 1, so the final division never divides by zero |
| MovingAverage.EmaOf | main.py:21-28 | the definition of the value `EMA` returns; its properties are in `MovingAverage.Ema`, `MovingAverage.EmaWithinWindowBounds`, `MovingAverage.EmaOfConstantWindow` and `MovingAverage.EmaReadsOnlyWindow` |
| MovingAverage.Ema | main.py:21-28 | the loop either fails or returns the weighted average `EmaOf` of the window; it fails only with IndexError, and exactly when a subscript `offset - i` (i in 0..N) is outside the list, with negative subscripts counting from the end as in Python |
| MovingAverage.AverageWithinBounds | main.py:25-28 | a weighted sum divided by its total weight lies between any lower and upper bound of the samples it reads |
| MovingAverage.EmaWithinWindowBounds | main.py:21-28 | the average lies between the minimum and maximum of its window `offset-N .. offset` |
| MovingAverage.EmaOfConstantWindow | main.py:21-28 | a constant window averages to that constant |
| MovingAverage.EmaOfPeriodZero | main.py:21-28 | with N = 0 the average is the sample at `offset` itself |
| MovingAverage.EmaReadsOnlyWindow | main.py:25-26 | for `N <= offset`, two lists that agree on `offset-N .. offset` give the same average |
| MovingAverage.WeightedSumZeroTail | main.py:25-27 | terms that read zeros add nothing to the numerator |
| Indicators.MacdAt | main.py:33-39 | the definition of MACD entry i; its properties are in `Indicators.CreateMacd`, `Indicators.MacdOfFlatPrices` and `Indicators.MacdWithinSpread` |
| Indicators.MacdSeries | main.py:31-40 | the definition of the list `create_MACD` returns; its properties are in `Indicators.CreateMacd` and `Indicators.MacdOfFlatPrices` |
| Indicators.SignalAt | main.py:45-49 | the definition of SIGNAL entry i; its properties are in `Indicators.CreateSignal` and `Indicators.SignalWarmupDamped` |
| Indicators.SignalSeries | main.py:43-50 | the definition of the list `create_SIGNAL` returns; its properties are in `Indicators.CreateSignal` and `Indicators.SignalOfZeroMacd` |
| Indicators.CreateMacd | main.py:31-40 | the loop fails only with IndexError, and succeeds exactly when every index from 26 to `rows_number - 1` is a valid index of the price list, and then returns the series that is 0 below 26 and EMA12 minus EMA26 from 26 on |
| Indicators.CreateSignal | main.py:43-50 | the loop fails only with IndexError, and succeeds exactly when every index from 26 to `rows_number - 1` is a valid index of MACD, and then returns the series that is 0 below 26 and the 9-bar average of MACD from 26 on |
| Indicators.MacdOfFlatPrices | main.py:31-40 | constant prices give a MACD of zeros |
| Indicators.MacdWithinSpread | main.py:37-39 | from bar 26 on, MACD is bounded by the spread (max minus min) of the 27 prices `i-26 .. i` of the slow window |
| Indicators.SignalOfZeroMacd | main.py:43-50 | a MACD of zeros gives a SIGNAL of zeros |
| Indicators.SignalWarmupDamped | main.py:46-49 | for bars 26..34 the SIGNAL window still reads MACD's warm-up zeros: the value is only the weighted sum of MACD's bars 26..i, divided by all ten weights |
| Rounding.Round | main.py:71-72 | `round(x)` is an integer within half a unit of x, and in a tie it is the even one |
| Rounding.RoundCents | main.py:68 | `round(x, 2)` is a whole number of cents within half a cent of x |
| Rounding.RoundOfInt | main.py:71-72 | rounding a whole number gives it back |
| Rounding.RoundCentsOfCents | main.py:85-87 | rounding an amount already in cents gives it back |
| Orders.DefaultConfig | main.py:53-54 | the definition of the default keyword arguments (multipliers 1.0, indivisible); `Simulation.IndivisibleBuyCanOverspend` uses it |
| Orders.SoldQuantity | main.py:69-72 | the definition of the sold quantity; its properties are in `Orders.SoldNear` and `Orders.SellAllSoldQuantity` |
| Orders.BoughtQuantity | main.py:77-80 | the definition of the bought quantity; its properties are in `Orders.BoughtNear`, `Orders.AllIn` and `Orders.OverspendExample` |
| Orders.SellProceeds | main.py:68-71 | the cash a sell brings in is a whole number of cents |
| Orders.BuyCost | main.py:78-82 | the cash a buy takes out is a whole number of cents |
| Orders.SoldNear | main.py:69-72 | the sold quantity is within half an action of `selling_multiplier * actions`, and whole in indivisible mode |
| Orders.SellAllSoldQuantity | main.py:67-72 | with selling multiplier 1, a sell disposes of the whole holding when that holding is whole (or the mode is divisible) |
| Orders.BoughtNear | main.py:77-81 | the bought quantity is within half an action of `buying_multiplier * budget / price`, and whole in indivisible mode |
| Orders.ProceedsNear | main.py:68-71 | a sell's proceeds are within half a cent of the value of the sold actions |
| Orders.CostNear | main.py:78-82 | a buy's cost is within half a cent of the multiplier's share of the budget (divisible mode), or of the value of the bought actions (indivisible mode) |
| Orders.IndivisibleCostBounded | main.py:80-82 | in indivisible mode a buy costs at most the multiplier's share of the budget plus half a price plus half a cent |
| Orders.OverspendExample | main.py:80-82 | budget 11 at price 4 buys round(2.75) = 3 actions for 12, more than the budget |
| Orders.AllIn | main.py:76-78 | in divisible mode with multiplier 1, a budget in cents buys budget/price actions for exactly the budget |
| Orders.AllOut | main.py:67-69 | in divisible mode with multiplier 1, a sell disposes of the whole holding and brings in its value rounded to cents |
| Simulation.ApplySell | main.py:66-73 | the definition of the selling branch; its properties are in `Simulation.SellKeepsCents`, `Simulation.SellKeepsWhole`, `Simulation.SellAllEmptiesHolding` and `Simulation.AllInRoundTrip` |
| Simulation.ApplyBuy | main.py:75-83 | the definition of the buying branch, with ZeroDivisionError at a zero price; its properties are in `Simulation.BuyKeepsCents`, `Simulation.BuyKeepsWhole`, `Simulation.IndivisibleBuyOverspendBounded` and `Simulation.AllInRoundTrip` |
| Simulation.Step | main.py:65-84 | the definition of one bar; its properties are in `Simulation.StepTradesExactlyOnCross`, `Simulation.StepConsistent` and `Simulation.StepKeepsCents`, `Simulation.StepKeepsWhole` |
| Simulation.Run | main.py:65 | the definition of the bars i .. rows-1 in order; its properties are in `Simulation.RunConsistent`, `Simulation.RunKeepsCents`, `Simulation.RunKeepsWhole`, `Simulation.QuietRunChangesNothing` and `Simulation.RunSucceeds` |
| Simulation.Initial | main.py:58-64 | the definition of the state before bar 26; its properties are in `Simulation.FirstBarQuiet` and `Simulation.TradesAlternate` |
| Simulation.Profit | main.py:86 | the definition of the profit; its properties are in `Backtest.FlatMarketNoProfit` and `Backtest.FlatMarketProfitIsHolding` |
| Simulation.ProfitPercent | main.py:88 | the definition of the profit percentage; its properties are in `Backtest.FlatMarketNoProfit` |
| Simulation.Settle | main.py:85-88 | the definition of the end of the run, with ZeroDivisionError for a zero starting budget; its properties are in `Simulation.SimulationKeepsCents`, `Simulation.SimulationKeepsWhole` and the `Backtest` flat-market lemmas |
| Simulation.MacdSimulation | main.py:53-89 | a MACD or SIGNAL list with no bar 26 raises IndexError, and a zero starting budget always ends in an error (`Simulation.ZeroBudgetDivides` names it ZeroDivisionError once every read succeeds) |
| Simulation.ZeroBudgetDivides | main.py:85-88 | when bar 26, every bar's reads and the last price all succeed, a zero starting budget ends in ZeroDivisionError from the percentage's division, and in no other error |
| Simulation.Valuation | main.py:85 | adding the holding's value, rounded to cents, to a budget in cents leaves it in cents |
| Simulation.Simulate | main.py:53-89 | the loop (flag from bar 26, then sell, buy or nothing on each bar from 26 to `rows_number - 1`, then valuation and profit) returns exactly `MacdSimulation` |
| Simulation.StepTradesExactlyOnCross | main.py:65-84 | a bar trades exactly when it is a strict crossing for the current flag. A trade appends the bar, the side and the bar's price, and flips the flag; a sell is the selling branch and a buy the buying branch. Any other bar leaves the state unchanged |
| Simulation.FirstBarQuiet | main.py:61-66 | bar 26 never trades, because the flag was just set from that same bar |
| Simulation.QuietRunChangesNothing | main.py:65-84 | bars on which MACD equals SIGNAL leave the state unchanged |
| Simulation.StepConsistent | main.py:65-84 | one bar keeps the trade log well formed and the flag in step with its last trade |
| Simulation.RunConsistent | main.py:65-84 | every run keeps the trade log well formed and the flag in step with its last trade |
| Simulation.TradesAlternate | main.py:61-84 | the trades of a completed simulation lie on bars 27..rows-1 in strictly increasing order, alternate sides, start with a sell exactly when MACD started above SIGNAL on bar 26, and each carries its bar's price and a strict crossing on that bar |
| Simulation.TiesNeverTrade | main.py:66-75 | if MACD equals SIGNAL on every bar after 26, no trade happens |
| Simulation.SellKeepsCents | main.py:68-71 | after a sell, a budget in whole cents is still in whole cents, whatever the holding |
| Simulation.BuyKeepsCents | main.py:78-82 | a buy at a non-zero price succeeds, and a budget in whole cents is still in whole cents after it |
| Simulation.SellKeepsWhole | main.py:72 | in indivisible mode a sell keeps a whole holding whole, whatever the budget |
| Simulation.BuyKeepsWhole | main.py:80-81 | in indivisible mode a buy at a non-zero price succeeds and keeps a whole holding whole, whatever the budget |
| Simulation.StepKeepsCents | main.py:65-84 | after one bar, a budget in whole cents is still in whole cents |
| Simulation.StepKeepsWhole | main.py:65-84 | in indivisible mode one bar keeps a whole holding whole |
| Simulation.RunKeepsCents | main.py:65-84 | after a run over any bars, a budget in whole cents is still in whole cents |
| Simulation.RunKeepsWhole | main.py:65-84 | in indivisible mode every run keeps a whole holding whole |
| Simulation.SimulationKeepsCents | main.py:58-88 | from a starting budget in cents, the final budget is in cents, so the printed `round(budget, 2)` is the budget itself |
| Simulation.SimulationKeepsWhole | main.py:58-88 | in indivisible mode, from a whole starting holding and any starting budget, the final holding is whole |
| Simulation.SellAllEmptiesHolding | main.py:66-72 | with selling multiplier 1, a sell empties a whole (or divisible) holding |
| Simulation.AllInRoundTrip | main.py:66-82 | in divisible mode with both multipliers 1, starting from no holding and a budget in cents: buying at p1 then selling at p2 leaves no holding and a budget of budget/p1*p2 rounded to cents |
| Simulation.IndivisibleBuyOverspendBounded | main.py:75-82 | in indivisible mode a buy leaves at least the budget minus the multiplier's share, minus half a price, minus half a cent |
| Simulation.IndivisibleBuyCanOverspend | main.py:80-82 | with the default keyword arguments, a budget of 11 buys 3 actions at price 4 and leaves a budget of -1 |
| Simulation.RunSucceeds | main.py:65-84 | bars whose reads are all in range and whose prices are non-zero cannot fail |
| Simulation.SimulationSucceeds | main.py:53-88 | with more than 26 bars, every list long enough, no zero price from bar 26 on and a non-zero starting budget, the simulation completes |
| Backtest.Pipeline | main.py:97-104 | the definition of the chain MACD, SIGNAL, simulation over `rows` bars; its properties are in `Backtest.TooFewBarsFails`, `Backtest.PipelineSucceeds` and the flat-market lemmas |
| Backtest.SeriesOf | main.py:31-50 | the three series the simulation reads: the prices, and MACD and SIGNAL, each `rows_number` long |
| Backtest.TooFewBarsFails | main.py:63 | with 26 bars or fewer the chain raises IndexError, because MACD has no bar 26 |
| Backtest.PipelineSucceeds | main.py:31-88 | over all bars of more than 26 prices, none of them zero from bar 26 on, and from a non-zero budget, the chain completes |
| Backtest.FlatIndicators | main.py:31-50 | on flat prices both MACD and SIGNAL are zero everywhere |
| Backtest.FlatRunIsInitial | main.py:61-84 | on flat prices the flag starts clear and the run ends in the initial state |
| Backtest.FlatMarketNeverTrades | main.py:31-88 | a flat market never trades: no trades are recorded, the holding is kept, and the final budget is the starting budget plus the holding valued at the flat price |
| Backtest.FlatMarketNoProfit | main.py:85-88 | on a flat market, from no holding, the final budget is the starting budget and the profit and percentage are 0 |
| Backtest.FlatMarketProfitIsHolding | main.py:85-86 | the profit is measured against the starting budget alone: on a flat market, the value of the starting holding is reported as profit |

## Left out

- `load_data` (main.py:7-18) reads a CSV file through pandas and parses dates. It is I/O: the model takes the price list as input.
- The `dates` list and every `plt` call (main.py:62, 74, 84, 93-106) only draw. The model records each trade's bar, side and price instead. Because the dates are not modelled, an IndexError from a `dates` list shorter than the prices is not modelled either.
- The summary `print` (main.py:87-88) is replaced by the `Report` fields it prints. The model keeps the order of evaluation that matters: the percentage's division by the starting budget comes after the valuation and the profit, so a zero starting budget is ZeroDivisionError in every run that reaches the end.
- `main` (main.py:92-110) only wires I/O to the three stages. `Backtest.Pipeline` chains the stages the same way, with the number of bars as a parameter.
- Floating point: every quantity is an exact real. Python's `round(x, 2)` rounds the binary value of the float, so a decimal tie such as 2.675 can go either way there, while here half-to-even applies to the exact value. `(1-alpha)**i` is exact repeated multiplication.
- No validation of the configuration (multipliers in (0, 1], a non-negative budget) is modelled, because the source performs none: any real multiplier is accepted, as in the code.
- Behaviour kept exactly as the code has it:
  - The EMA window reads Python subscripts, so a window that starts before index 0 wraps to the end of the list instead of raising IndexError.
  - SIGNAL starts at bar 26, so for bars 26..34 it averages over MACD's warm-up zeros (`Indicators.SignalWarmupDamped`).
  - The profit baseline is the starting budget alone, without the starting holding. `Backtest.FlatMarketProfitIsHolding` shows the consequence.
  - A series with 26 bars or fewer raises IndexError at the read of bar 26 (`Backtest.TooFewBarsFails`).
  - In indivisible mode the bought quantity is rounded to the nearest integer, so a buy can spend more than the budget (`Simulation.IndivisibleBuyCanOverspend`).
  - The all-in/all-out round trip is exact only up to the final rounding to cents (`Simulation.AllInRoundTrip`).
