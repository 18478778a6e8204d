# QuantBack crossover backtester — a Dafny model

QuantBack backtests a moving-average crossover strategy over a list of
closing prices. This project models its two core Python functions in
`backtester_py.py`:

- `calculate_sma_series` computes the simple moving average of every bar in
  one pass. It keeps a running sum of the trailing window. Bars before the
  window fills stay `None`.
- `simulate_trading_strategy` first checks that the capital covers the
  opening price. It then walks the bars from `long_window` on and skips any
  bar whose averages are still undefined. On an upward crossover while flat
  it buys with all cash. On a downward crossover while long it sells every
  share. Every bar it processes gets its mark-to-market value written into
  an equity curve pre-filled with the capital. Each trade is written into a
  trade list pre-filled with `None`. An open position is not liquidated at
  the end.

The model has four modules:

- `Wrappers` holds `Option` and `Result`.
- `MovingAverage` holds the `Sum`, `Mean` and `SmaSeries` reference
  functions. It also holds the imperative `CalculateSmaSeries`: one loop
  over an array, proved equal to `SmaSeries`.
- `Strategy` holds the datatypes of the simulator (trades, portfolio,
  result, failures) and the decision at one bar, `ApplySignal`. It holds
  `Run`/`Simulate`, a recursive specification of the loop. `Replay`
  rebuilds the portfolio from a trade list alone. It also holds the
  imperative `SimulateTradingStrategy`, proved equal to `Simulate`. That
  method does the capital check and computes the two average series. It
  then calls `TradingLoop`, which models the `for` loop of lines 30-50 as a
  `while` loop, with the set-up of lines 22-25 and the return of line 53.
  The loop updates `cash`, `shares` and the two lists (sequence variables written by
  index) bar by bar. Its invariants state that the cash and shares held on
  reaching bar `i` are the replay of the trades recorded before `i`. From
  non-negative capital, they are also never negative and never both
  non-zero.
- `StrategyProperties` holds what the simulator guarantees. It covers when
  and how it fails and that the bars it does not process keep the capital
  and no trade. It also covers what it records at the bars it processes,
  that the cash and shares it holds are the trade list's replay, that
  they are never both non-zero, and that trades alternate BUY, SELL, BUY, …

The code never checks that `short_window <= long_window`. When the short
window is longer, at the first bar where the short average is defined,
the previous bar's short average is `None`. The subtraction on line 36 then
raises a `TypeError`. The model keeps this behaviour as the error
`UndefinedAverage` and states exactly when it happens.

`backtester_py.py` has no fees, slippage, stop-loss, allocation fraction,
entry/exit records or metrics, and it never rejects
`short_window >= long_window`; the model has none of these either.

## Model

| member | source | states |
|---|---|---|
| MovingAverage.CalculateSmaSeries | backtester_py.py:4-15 | The result has one entry per price; entry `i` is defined exactly when `i >= window - 1`, and then equals the mean of the `window` prices ending at `i`; the whole list equals the naive reference `SmaSeries`. |
| MovingAverage.SlideWindow | backtester_py.py:8-11 | Adding the next price and, once `i >= window`, subtracting `closes[i - window]` turns the sum of the trailing window ending before `i` into the sum of the trailing window ending at `i`. |
| MovingAverage.MeanConstant | backtester_py.py:12-13 | The average of a window whose prices are all one value is that value. |
| Strategy.ApplySignal | backtester_py.py:38-47 | A BUY at the bar's price is recorded exactly when no shares are held, the difference is positive and the previous one non-positive. A SELL is recorded exactly when shares are held, the difference is negative and the previous one non-negative. A trade turns all cash into shares or all shares into cash; without a trade the portfolio is unchanged. From a flat or long portfolio, the trade leaves the value at that price unchanged. |
| Strategy.Run | backtester_py.py:30-50 | The loop from bar `i` returns an equity curve and a trade list as long as the price list, or fails only with the undefined-average error. |
| Strategy.SimulateTradingStrategy | backtester_py.py:17-53 | The simulator returns exactly `Simulate`, and fails with the capital error exactly when the capital is below the opening price. |
| Strategy.TradingLoop | backtester_py.py:22-53 | The loop over the pre-filled lists returns exactly `Run` from bar `long_window` with all capital in cash. Its invariants keep the running cash and shares equal to the replay of the trades recorded so far and, from non-negative capital, non-negative with at least one of them zero. |
| StrategyProperties.RunOutcome | backtester_py.py:30-36 | The loop from bar `i >= long` fails exactly when `long < short`, `i < short` and `short <= len(closes)`, for any pair of average series undefined exactly on their first `window - 1` bars. |
| StrategyProperties.SimulateOutcome | backtester_py.py:19-36 | There are three outcomes. The capital error occurs exactly when `capital < open_price`. The undefined-average error occurs exactly when the capital suffices and `long < short <= len(closes)`. Otherwise (that is, when `short <= long` or the short window never fills) a result is returned. |
| StrategyProperties.RunKeepsLedger | backtester_py.py:30-50 | Continuing the loop from any bar keeps both lists in the state the loop prescribes. Untouched bars hold the capital and `None`. Each processed bar holds what `ApplySignal` gives from the portfolio replayed from the earlier trades. |
| StrategyProperties.SimulateLedger | backtester_py.py:22-50 | In a successful run the lists are as long as the prices and in that prescribed state for every bar. |
| StrategyProperties.SimulateRecordsBars | backtester_py.py:23-50 | In a successful run both lists have one entry per bar. A bar before `long_window`, or whose short average is undefined, keeps the capital and `None`. Every other bar is fully explained. It holds a BUY at its close exactly on an upward crossover while flat, a SELL at its close exactly on a downward crossover while long, and nothing otherwise. Its equity is the value at its close of the portfolio both before and after its trade. With `short <= long` no bar from `long_window` on is skipped. |
| StrategyProperties.ProcessedBar | backtester_py.py:35-50 | One bar from `long_window` on whose short window has filled is explained in this way. |
| StrategyProperties.ReplayFlatOrLong | backtester_py.py:39-47 | Any trade list replays to a portfolio whose cash or shares are zero. |
| StrategyProperties.ReplaySound | backtester_py.py:39-47 | Starting from non-negative capital, any trade list replays to non-negative cash and shares, at least one of which is zero. |
| StrategyProperties.SimulatePortfolioSound | backtester_py.py:22-47 | In a successful run from non-negative capital, the cash and shares held on reaching every bar are non-negative and never both non-zero. |
| StrategyProperties.GuardedPrefixAlternates | backtester_py.py:39-47 | From positive capital, a trade list where each BUY comes while flat and each SELL while long alternates BUY, SELL, BUY, … After an even number of trades the portfolio is all positive cash; after an odd number it is all positive shares. |
| StrategyProperties.SimulateTradesAlternate | backtester_py.py:39-47 | In a successful run from positive capital, the recorded trades alternate starting with a BUY, each at its bar's close. The final portfolio is all cash after an even number of trades and all shares after an odd number. |
| StrategyProperties.FlatPricesNeverTrade | backtester_py.py:30-50 | When every close is equal, the capital covers the opening price, and either `short <= long` or the short window is longer than the price list, the simulator returns exactly the capital at every bar and no trade. |
| StrategyProperties.LastBarEquity | backtester_py.py:49-53 | For any positive windows and a non-empty price list, the last equity entry is the value at the last close of the portfolio the whole trade list replays to. |
| StrategyProperties.OpenPositionMarkedToMarket | backtester_py.py:49-53 | For any positive windows, a non-empty price list and positive capital: nothing is liquidated at the end. The last equity is the replayed portfolio marked at the last close. After an odd number of trades the last trade is a BUY, shares are still held, and the last equity is those shares times the last close. |
| StrategyProperties.OddFillsEndLong | backtester_py.py:39-47 | After an odd number of alternating trades, the last trade is a BUY and the value is the shares held times the price. |

## Left out

- `main` is left out: reading the CSV file with pandas, the fixed windows and capital, and printing.
- Floating point is left out: prices, averages, cash and shares are exact reals. The running sum of `calculate_sma_series` therefore equals the naive window mean exactly, which floating point does not guarantee.
- Windows of zero or less are excluded by `requires 0 < window`. With a zero window, `calculate_sma_series` raises `ZeroDivisionError` at its first price; on an empty price list it returns `[]`. With a negative window, `closes[i - window]` reads past the end of the list, so it raises `IndexError` by the last price at the latest. Neither case is modelled.
- Every close is positive (`Price`). This drops all zero and negative closes, including those the source processes without error. The source divides by the close only on a BUY bar (line 40), so only a zero close on a BUY bar raises `ZeroDivisionError` there.
- `open_price` is used only for the capital check, exactly as in the source.
- A trade entry holds only its side and price, as the source's dictionaries do. Dictionary keys and the string spellings `"BUY"`/`"SELL"` are replaced by a datatype.
- TradingLoop: the cash/shares update of lines 39-47 is computed by calling `ApplySignal` in the loop body instead of being written out inline; the branches and assignments are the same. The two lists are local sequence variables updated by index, so in-place mutation of a Python list that another reference could see is not modelled; the source keeps both lists local until it returns them.
- SimulatePortfolioSound: needs `capital >= 0`. The source does not check the sign of the capital; it only compares the capital with the opening price.
- SimulateTradesAlternate: needs `capital > 0`. With zero capital a BUY buys zero shares, so a second BUY can follow it.
- OpenPositionMarkedToMarket: needs positive capital, so that trades alternate, and a non-empty price list, so that there is a last bar.
- FlatPricesNeverTrade: covers only the cases in which the simulator returns a result (SimulateOutcome). With a short window longer than the long one that still fits in the price list, the simulator fails first with the undefined-average error.
