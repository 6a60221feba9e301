# MAverage trading daemon: the decision core, modelled in Dafny

MAverage is a trading daemon for the BTC markets of BitMEX, Kraken and Liquid.
Every round of its main loop does three things:

- It compares a short and a long moving average of the stored prices and
  decides BUY or SELL.
- When the decision differs from the last action it recorded, it trades: a few
  limit orders and then a market order, sized to the configured leverage and
  short target.
- It trails a stop-loss behind the position.

The daemon records each action in a small action file. A leading `-` in that
file marks a trade still in flight. At startup the daemon reconciles the file
with the orders the exchange reports. It also keeps the daily statistics of the
last three days.

This project models the decision logic of `maverage.py`. Every value the
daemon reads from its configuration or from the exchange is a parameter here,
so each rule becomes a function of its inputs.

**Modules**

- `Arith`: Python's `round`, ties to even, on exact values.
- `Strings`: the `str` operations the rules use: `startswith`, `in`, `strip`
  and `lower`.
- `Signal`: the moving average. `CalculateMa` is a loop proved against
  `MovingAverage`. Also the sample counts and BUY/SELL.
- `Mayer`: the Mayer-multiple advice.
- `StopLoss`: the stop-loss price and the ratchet it forms over successive
  rounds.
- `Sizing`: buy and sell sizes per exchange, the percentages used, and the
  funding currency and leverage level on Liquid.
- `Orders`: normalising orders and reading the terminal exchange errors. Also
  limit prices, the polling loop and the limit-order trial loop (`RunTrials`,
  proved against `Trials`).
- `DailyStats`: the ring of daily statistics, a class over a `seq` proved
  against `AddDay`.
- `Trading`: the action marker and startup recovery (`Recover`). Also the
  stop-loss step of a round (`Protect`), and the `Trader` class. `Trader`
  holds the daemon's state and updates it in place; each of its methods is
  proved against those functions.

Where the source crashes (a `None` sliced or compared, a missing closed order),
the model has a `Crashed` outcome or an `ok == false` result. It does not
invent a behaviour for those cases. Where the source divides, the divisor being
non-zero is a precondition. Where it indexes the stored rates, enough rates
being stored is a precondition (see `Signal.CalculateMa` under "## Left out").

## Model

| member | source | states |
|---|---|---|
| Arith.RoundDiv | maverage.py:1109 | `round(n / d)` lies within half of `d` of `n`, and a tie goes to the even quotient |
| Arith.RoundToTenth | maverage.py:935 | `round(x, 1)` lies within 0.05 of `x` |
| Arith.RoundToTenthWholeTenths | maverage.py:935 | `round(x, 1)` is a whole number of tenths |
| Arith.RoundToTenthMonotone | maverage.py:935 | rounding to a tenth preserves order |
| Strings.Contains | maverage.py:714 | `p in s` holds exactly when `p` occurs at some offset of `s` |
| Strings.RStrip | maverage.py:875 | `rstrip` removes exactly the trailing whitespace |
| Strings.LStrip | maverage.py:870 | `lstrip` removes exactly the leading whitespace |
| Strings.Lower | maverage.py:90 | `lower` maps each character to its lower case and keeps the length |
| Strings.LowerIdempotent | maverage.py:90 | lowering twice is lowering once |
| Signal.CalculateMa | maverage.py:814-828 | the loop returns the `MovingAverage` of the inputs: the first `size` prices over `size`, or the live price plus the first `size - 1` prices over `size` |
| Signal.MovingAverageBetween | maverage.py:814-828 | when every sample (and the live price) lies in `[lo, hi]`, so does the average |
| Signal.MovingAverageExamples | maverage_test.py:434-447 | the test vectors: the average of 15000, 10000, 5000 over 3, 2 and 1 samples is 10000, 12500 and 15000; with the live price 20000 and the samples 15000, 10000 it is 15000, 17500 and 20000 |
| Signal.FetchSize | maverage.py:1103-1109 | at least one sample; exactly one when `minutes` is below the interval, otherwise the nearest whole number of samples to `minutes / interval`, a tie going to the even one |
| Signal.FetchSizeExamples | maverage_test.py:70-82 | at interval 10: 60 gives 6, 20 gives 2, 5 gives 1, 25 gives 2 and 35 gives 4 |
| Signal.BuyOrSell | maverage.py:1112-1116 | BUY exactly when the short average is strictly above the long one, so a tie is SELL |
| Signal.Decide | maverage.py:1119-1125 | BUY exactly when the short moving average exceeds the long one; the live price counts only on BTC/USD |
| Signal.FlatMarketSells | maverage.py:1112-1116 | in a market where every price is the same, the decision is SELL |
| Mayer.EvaluateMayer | maverage.py:175-182 | n/a exactly without a multiple; BUY exactly below the average; SELL exactly at or above the average and above 2.4 |
| Mayer.EvaluateMayerExamples | maverage.py:175-182 | 1.0 under 1.5 is BUY, 2.5 is SELL, 2.0 is HOLD |
| StopLoss.StopLossPrice | maverage.py:1563-1586 | the result is at least as tight as the market moved by `pct`. It is also at least as tight as the existing stop, or with no stop as the order price moved by `pct`, and it is one of these candidates. With `no_action_at_loss` a result is tighter than the order price and None means no candidate is; without the flag there is always a result |
| StopLoss.StopLossPriceExamples | maverage_test.py:724-817 | the nine test vectors, e.g. SHORT from 10100 with order 10000 and no stop gives 10500 |
| StopLoss.NextStop | maverage.py:1783-1801 | one round of the guard, when stops are placed at the requested price: a truthy candidate replaces the stop exactly when there is no stop yet or it is strictly tighter, and otherwise the stop is kept; so an existing stop never loosens |
| StopLoss.TrailRatchets | maverage.py:1783-1801 | over any sequence of market prices, once a stop exists every later stop is at least as tight as every earlier one |
| Sizing.AboveMinimum | maverage.py:1048 | a size is ordered exactly when it exceeds `MIN_ORDER_SIZE`: 0.0001 on BitMEX (maverage.py:1750-1751), 0.001 elsewhere (maverage.py:25) |
| Sizing.NormaliseBalance | maverage.py:1496-1499 | a missing `used` or `free` becomes 0, and every reported value is kept |
| Sizing.LiquidHoldings | maverage.py:1012-1014 | the wallet's holdings exactly when the trading account's crypto and fiat sum to 0, else the trading account's |
| Sizing.UsedMarginPercentage | maverage.py:502-510 | 0 without a positive total; otherwise `100 * (total - free) / total`, which lies in [0, 100] for a consistent balance and equals the used share when `used + free == total` |
| Sizing.UsedMarginPercentageExamples | maverage_test.py:378-388 | 49 free of 100 is 51 percent used; an empty balance is 0 |
| Sizing.Percent | maverage.py:1526-1528 | `(part / whole) * 100` times the whole is 100 times the part |
| Sizing.PercentageUsed | maverage.py:1522-1534 | BitMEX with a position: the notional as a percentage of the levered balance. Otherwise the not-free share of the crypto balance, or of the margin balance on Kraken |
| Sizing.BuyOrderSize | maverage.py:1004-1048 | a size exactly when the branch's size exceeds the minimum. Multiplied back by the fees (1%, Kraken 1.04 more) it recovers the capital the branch spends: the levered balance; on BitMEX that plus the PnL less the grossed-up notional; on Kraken the levered fiat total, or the levered free fiat when the total is 0; the larger side on Liquid |
| Sizing.BuySizeNotional | maverage.py:1030-1046 | the Kraken and Liquid buy sizes times price and fees are the fiat they spend |
| Sizing.Room | maverage.py:1093-1099 | the size times the fees times 100 is the capital times the remaining percentage |
| Sizing.RoomToTarget | maverage.py:1090-1100 | a size exactly when `used` is below the target and the remaining share of the capital, less fees, exceeds the minimum; that size times the fees is the remaining share |
| Sizing.RoomToTargetShrinks | maverage.py:1090-1100 | the more of the short target is used, the smaller the sell |
| Sizing.BitmexLongSell | maverage.py:1081-1086 | from a long, the sell is the long, plus the PnL, plus the target share of the capital net of 1% of the long |
| Sizing.SellOrderSize | maverage.py:1051-1100 | BitMEX from a long: `BitmexLongSell` when above the minimum. Liquid: a size exactly when the target share of the larger side, less 1%, exceeds the minimum, and then that share. Otherwise a size exactly when the target is not used up and the room to it exceeds the minimum, and then that room against the capital (Kraken: doubled, or times leverage + 1); so a BitMEX position past the target sells nothing |
| Sizing.LiquidShort | maverage.py:1069 | the Liquid short plus its 1% fee, times 100, is `base` times the target percentage |
| Sizing.LiquidSellSize | maverage.py:1058-1070 | a size exactly when the target share, less 1%, exceeds the minimum, and then that share: of the fiat's worth in crypto when that exceeds the crypto held, else of the crypto |
| Sizing.ExchangeSellSize | maverage.py:1072-1100 | the BitMEX and Kraken rules of `SellOrderSize`: a long on BitMEX sells `BitmexLongSell`; otherwise a size exactly when the target is not used up and the room to it exceeds the minimum, and then that room |
| Sizing.BitmexSellExamples | maverage_test.py:100-238 | the BitMEX sell test vectors, e.g. 0.128804 from a 0.0792 long at 50 percent |
| Sizing.BitmexBuyExamples | maverage_test.py:283-376 | the BitMEX buy test vectors |
| Sizing.KrakenSellExamples | maverage.py:1074-1078 | Kraken sells against twice the balance: 0.1 / 1.01 / 1.04 at 50 percent with nothing used, and nothing at 75 of 75 percent |
| Sizing.LiquidSellExample | maverage.py:1058-1070 | Liquid shorts half of 0.1 BTC as 0.05 / 1.01 |
| Sizing.FundingCurrency | maverage.py:895-901 | a funding currency exists exactly on Liquid (for buys only with leverage above 1); it is the quote currency exactly when the fiat buys more than the crypto holds. The sell side is at maverage.py:967-973 |
| Sizing.LiquidLeverageLevel | maverage.py:1186-1191 | none exactly below 2; a supported level (2, 4, 5, 10, 25) as is; any other level of at least 2 as 2 |
| Orders.NormaliseKind | maverage.py:91-94 | the type is `stop` exactly for `stop`, `stop-loss` and `trailing_stop`; other types are kept |
| Orders.FromExchange | maverage.py:86-101 | id, amount and date are kept; the side is lower-cased; a stop takes `stopPx` when present, every other order its price |
| Orders.FromExchangeIdempotent | maverage.py:86-101 | normalising a normalised order changes nothing |
| Orders.FixOrderPrice | maverage.py:1634-1646 | an order with a truthy price is left alone; a priceless one takes the closed order's price exactly when that order has the same id and a truthy price; id, amount, side, kind and date are kept |
| Orders.IsTerminalError | maverage.py:31 | an error is terminal exactly when one of the `STOP_ERRORS` markers occurs in its message |
| Orders.AnyOccurs | maverage.py:714 | `any(e in msg for e in markers)` holds exactly when some marker occurs in the message |
| Orders.OnExchangeError | maverage.py:1226-1235 | the order call gives up exactly on a terminal error, otherwise retries |
| Orders.TerminalErrorExamples | maverage.py:31 | a BitMEX liquidation-price error and an insufficient-funds error are terminal |
| Orders.LiquidationPriceIsTerminal | maverage.py:31 | `liquidation price` inside a BitMEX error body makes it terminal |
| Orders.InsufficientFundsIsTerminal | maverage.py:31 | `Account has insufficient Available Balance` is terminal through the `nsufficient` marker |
| Orders.TerminalAt | maverage.py:714 | any message holding a marker at some offset is terminal |
| Orders.UpperCaseIsNotTerminal | maverage.py:714 | the markers match case-sensitively: a message without lower-case letters is never terminal |
| Orders.BuyPrice | maverage.py:929-935 | within 0.05 of the market price lowered by the advantage |
| Orders.SellPrice | maverage.py:995-1001 | within 0.05 of the market price raised by the advantage |
| Orders.LimitPriceExamples | maverage_test.py:660-674 | 10000 with 0.018 percent gives 9998.2 to buy and 10001.8 to sell |
| Orders.BuyBelow | maverage.py:929-935 | with a non-negative advantage the buy price is at most the market price rounded to a tenth |
| Orders.SellAbove | maverage.py:995-1001 | with a non-negative advantage the sell price is at least the market price rounded to a tenth |
| Orders.LimitPricesBracketMarket | maverage.py:929-1001 | for a whole-number price and a non-negative advantage, the buy price is at most the market price and the sell price at least |
| Orders.PollAttempts | maverage.py:940 | one fetch when the adjust time does not exceed the interval, otherwise the nearest whole number of intervals, a tie going to the even one |
| Orders.PollOrderStatus | maverage.py:938-947 | between one and `PollAttempts` fetches; every status before the last was `open`; stopping early means a status other than `open`; the last status is returned |
| Orders.PollAttemptsExamples | maverage_test.py:877-896 | 10 s at 2 s polls 5 times, 90 at 10 polls 9 times, 10 at 10 once |
| Orders.RunTrials | maverage.py:902-926 | the trial loop of `do_buy`/`do_sell` (also maverage.py:974-992) ends as `Trials` says, returns the order `ReturnedOrder` names, and leaves the pending marker exactly when an order was placed |
| Orders.TrialsShape | maverage.py:902-926 | at most `trade_trials` limit orders. The market order comes only after every trial was placed, stayed open and kept the signal. A fill is the first trial that did not stay open. A reversal follows a turned signal |
| Orders.TrialsFromShape | maverage.py:974-992 | the same, from any trial on |
| Orders.NoTrialsGoesToMarket | maverage.py:922-926 | with no trials it goes straight to the market order |
| DailyStats.Find | maverage.py:130-135 | `get_day` returns a record of that day, and None exactly when no record has that day |
| DailyStats.Insert | maverage.py:126 | inserting adds exactly that element (as a multiset) |
| DailyStats.SortDescending | maverage.py:126 | `sorted(..., reverse=True)` is a permutation of its input |
| DailyStats.SortDescendingSorted | maverage.py:126 | the sorted days descend |
| DailyStats.SortDistinct | maverage.py:126 | sorting keeps the days distinct |
| DailyStats.EvictDropsSmallest | maverage.py:125-127 | sort-and-pop removes exactly one record, and it has the smallest day |
| DailyStats.AddDay | maverage.py:121-128 | a day already present leaves the records alone; otherwise the new record is last, and the length grows by one only below three records |
| DailyStats.AddDayIdempotent | maverage.py:121-128 | adding a day twice is adding it once; the first figures stay |
| DailyStats.AddDayThenFind | maverage.py:121-135 | after adding, `get_day` finds the new record, or the original one when the day was already there |
| DailyStats.AddDayKeepsShape | maverage.py:121-128 | at most three records, with distinct days, are kept |
| DailyStats.AddDayExample | maverage_test.py:465-481 | after four consecutive days the oldest is gone and the others remain |
| DailyStats.AddNewDay | maverage.py:123-128 | below three records, a day no kept record has is appended |
| DailyStats.AddAtCapacity | maverage.py:123-128 | at three records, a new day replaces the record eviction drops |
| DailyStats.EvictThreeDays | maverage.py:125-127 | of three consecutive days, sort-and-pop drops the earliest and keeps the other two in descending order |
| DailyStats.SortThreeDays | maverage.py:126 | three ascending days sort to descending order |
| DailyStats.InsertBehind | maverage.py:126 | a record with a smaller day than the head is inserted behind it |
| DailyStats.Stats.constructor | maverage.py:117-119 | a new ring holds exactly the first day |
| DailyStats.Stats.Add | maverage.py:121-128 | the in-place update leaves `AddDay` of the old records and preserves the ring's invariant |
| DailyStats.Stats.Get | maverage.py:130-135 | as `Find` on the current records |
| Trading.ActionToken | maverage.py:875 | at most five characters, a prefix of the action, with trailing whitespace removed and only whitespace dropped from the first five |
| Trading.MarkerLine | maverage.py:874-878 | the file starts with the kept action and ends with `)` |
| Trading.ActionTokenOfActions | maverage.py:875 | BUY, SELL, NIX, -BUY and -SELL are written whole |
| Trading.ActionTokenKeeps | maverage.py:875 | a prefix of at most five characters ending in a non-blank survives the truncation |
| Trading.ReadBackMarker | maverage.py:866-878 | a marker read back after writing is unchanged |
| Trading.RewrittenMarkerToken | maverage.py:1689-1692 | re-writing a recovered `BUY (since ...)` keeps `BUY (`, and a recovered `SELL (since ...)` keeps `SELL` |
| Trading.NamesStartWith | maverage.py:1759 | a recorded action blocks a trade exactly for the same signal; `NIX` blocks neither |
| Trading.LiquidStop | maverage.py:1700-1709 | the adopted Liquid stop has the trade's id, the stop price, the position's amount and the opposite side |
| Trading.AdoptClosed | maverage.py:1695-1709 | a closed order that is not a stop becomes the position; on Liquid a stop on the open trade becomes the stop order; otherwise the stop fields are kept |
| Trading.RecoverCrashes | maverage.py:1656-1669 | `init` crashes exactly on a pending order with no action file, or with a pending marker whose order was not open when cancelled |
| Trading.RecoverCancelledPending | maverage.py:1656-1672 | a pending order that was still open: a pending marker gives the current signal, written; otherwise there is no last action; there is no position or stop |
| Trading.RecoverReset | maverage.py:1675-1680 | RESET gives `NIX`, no position, no stop, and an untouched file |
| Trading.RecoverFirstRun | maverage.py:1682-1687 | without a marker the current signal is adopted and written, and the file then starts with its name |
| Trading.RecoverStripsPending | maverage.py:1689-1693 | a pending marker loses its leading `-`, and the shorter action is written back |
| Trading.RecoverKeepsMarker | maverage.py:1682-1695 | a marker without a leading `-` is left as written and, stripped, becomes the last action |
| Trading.RecoverAdoptsClosed | maverage.py:1682-1710 | past RESET and the first run, the state is `Adopt` of the recovered action and the open stop order |
| Trading.RestartAfterTrade | maverage.py:1682-1710 | after a recorded trade, a restart recovers an action starting with that signal, so the same trade is not repeated |
| Trading.RestartAfterPending | maverage.py:1689-1693 | after a trade left pending, a restart recovers and rewrites an action starting with that signal |
| Trading.RecoverExamples | maverage_test.py:12-68 | first run gives BUY; reset gives NIX; a pending SELL still open gives BUY; a filled pending SELL gives SELL with the closed order |
| Trading.PositionSide | maverage.py:1777 | SHORT exactly when the order's side starts with `s` |
| Trading.AfterStopLoss | maverage.py:1612-1619 | order, stop order and stop price are all None, and the last action is kept |
| Trading.Repriced | maverage.py:1778-1779 | an order with a price is kept; without one it is `FixOrderPrice` against the closed order, and the result is missing exactly when there is no closed order |
| Trading.ProtectSkips | maverage.py:1766-1768 | without stop-loss, a position or a positive price, nothing changes |
| Trading.ProtectExitsOnFilledStop | maverage.py:1769-1775 | a closed or filled stop clears the position, the stop order and the stop price, and keeps the action |
| Trading.ProtectOnlyTightens | maverage.py:1783-1801 | the stop changes only on a filled stop, or to the placed order for a truthy candidate when there was no stop order or the candidate is strictly tighter |
| Trading.ProtectFollowsNextStop | maverage.py:1766-1801 | with stops placed at the requested price, a round moves the stop price exactly as `NextStop` does |
| Trading.Trader.constructor | maverage.py:1654 | the state starts empty |
| Trading.Trader.WriteAction | maverage.py:874-878 | the file holds `MarkerLine(act, now)`; nothing else changes |
| Trading.Trader.Init | maverage.py:1649-1710 | fails exactly when `Recover` crashes; otherwise leaves `Recover`'s state and file |
| Trading.Trader.PostTrade | maverage.py:1595-1609 | the action is recorded in the state and the file; on Liquid the open trade's id is kept |
| Trading.Trader.PostStopLoss | maverage.py:1612-1619 | the state becomes `AfterStopLoss` of the old one |
| Trading.Trader.FollowSignal | maverage.py:1756-1764 | fails exactly without a last action. A last action starting with the signal changes nothing. Otherwise the outcome is `Trials`, the position is `ReturnedOrder`, and the signal is recorded |
| Trading.Trader.ProtectPosition | maverage.py:1766-1801 | fails exactly when `Protect` crashes; otherwise leaves `Protect`'s state |

## Points the code settles

- STOP_ERRORS matching is case-sensitive. The marker `nsufficient` matches both
  `Insufficient` and `insufficient`, but an upper-case "TOO LOW" matches
  nothing (`Orders.UpperCaseIsNotTerminal`), because the condition
  `any(e in str(error.args) for e in STOP_ERRORS)` (maverage.py:714) is a
  plain substring test.
- Kraken sells are measured against twice the crypto balance (`total *= 2`,
  maverage.py:1074-1078). The Kraken sell tests expect half of that; the model
  follows the code.

## Left out

- Exchange calls (`get_*`, `create_*_order`, `cancel_order`, `fetch_*_status`,
  `set_leverage` and `update_stop_loss_order`/`trade`) are foreign calls. Their
  answers are parameters (`Startup`, `Attempt`, `placed`, `stopStatus`).
- The retry-by-recursion wrappers with their random sleeps are I/O timing.
  `OnExchangeError` keeps only the decision to give up or retry.
- The SQLite price store, everything in mamaster.py, e-mail, CSV and report
  formatting, `calculate_daily_statistics` (wall clock and persistence),
  pickle, the pid file, logging and configuration parsing are all I/O.
- The Mayer HTTP fetch is I/O. The main loop's own repetition and its sleeps
  are not modelled; a round is the two steps `FollowSignal` and
  `ProtectPosition`.
- Orders.RunTrials: the opposite side's `do_sell`/`do_buy`, called after the
  signal turns, is an input (`handedOver`). Its own trials are not unfolded.
- Orders.RunTrials: each attempt's status is the answer of `poll_order_status`,
  which `PollOrderStatus` models on its own.
- Trading.Trader.PostTrade: the Liquid wait loop for an open trade is replaced
  by the id it finally returns.
- `calculate_stop_loss_size`, `get_position_side` and the Liquid account lookup
  in `get_balance` read the exchange and are not part of this model.
- Arith.RoundToTenth: rounding is on the exact value, not on binary floating
  point, so results can differ at ties that floats cannot represent.
- Sizing.BuyOrderSize: `to_crypto_amount` rounds to 8 places, BitMEX rounds to
  half units and Liquid floors. The model divides exactly.
- Sizing.SellOrderSize: uses the same exact division in place of
  `to_crypto_amount`.
- Signal.CalculateMa and Signal.Decide require at least as many stored rates as
  the window reads. `get_last_rates` can return fewer rows, and `rates[i][0]`
  (maverage.py:826) then raises `IndexError`, which the main loop does not
  catch; that crash is not modelled.
- Strings.Lower: ASCII letters only; `strip` removes ASCII whitespace only.
- A Liquid trade's `stop_loss` is either present or absent. A present value
  that Python would find false (an empty string) is not modelled.
- Trading.Trader.ProtectPosition: a crash leaves no defined state. The method
  reports it and its state is not specified.
- The stale test expectations are not encoded: the Kraken sell sizes,
  `print_mayer`, the three-argument `append_performance`, and the capitalised
  `'Stop'`/`'Buy'` sides.
