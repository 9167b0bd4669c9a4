# Avellaneda–Stoikov market maker, modelled in Dafny

This project models a small automated market maker for one ticker. It has three parts:

- an **order book** that keeps the latest depth snapshot as two maps (bid and ask price to size) and reports the best prices and the top levels of each side;
- a **quote generator** (Avellaneda–Stoikov with a drift term). It keeps the latest mid-price and spread in ticks, plus a fixed-capacity FIFO window of mid-price increments. It produces a bid and an ask that are skewed by inventory;
- the **market maker** itself. It owns one order slot per side, a signed inventory, cash and a running order id. When the book changes it feeds the generator, expires stale orders and requotes. When a trade prints it fills any order the trade price crosses.

A new order counts as filled at once when it is marketable. The source tests a buy against the best bid and a sell against the best ask, which is the same side of the book (market_maker.py:167, 177). So a buy quoted exactly at the best bid is filled without crossing the spread. The model keeps this test as written (`MarketMaking.MarketMaker.Marketable`).

Files:

- `wrappers.dfy`: `Option`.
- `order_book.dfy` (module `OrderBooks`): best-price selection and top levels over a set of prices, snapshot application, and the `OrderBook` class.
- `avellaneda.dfy` (module `Avellaneda`):
  - the window of increments, with the `CircularBuffer` class over it;
  - population mean and variance;
  - mid-price, spread in ticks and the spread-derived k;
  - the linear part of the quote;
  - the `AvellanedaWithTrend` class.
- `market_maker.dfy` (module `MarketMaking`):
  - the order state machine as functions plus the `Order` class;
  - fill accounting and a ledger over any sequence of fills;
  - the `MarketMaker` class with its handlers.

What the source mutates is a class: the book's maps, the window, the generator's fields, an order's state, and the engine's slots, inventory, cash and order id. What the source computes as an expression is a function, and its properties are lemmas.

Modelling choices:

- Prices and sizes are `real`.
- The two transcendental factors of the quote (`log_part` and `sqrt_part`) are inputs.
- The clock is the parameter `now`.
- The asynchronous handlers are ordinary methods. In the source each one is a sequential chain of awaits.
- The generator subclass that overrides `get_k` (market_maker.py:18-24) is the constant `kRule == SpreadDerivedK` of the generator. `FixedK` is the base class's constant `k = 0.9`.

## Model

| member | source | states |
|---|---|---|
| OrderBooks.Best | order_book.py:85-89 | the result is a price of the set and comes before every other price of it: the maximum for bids, the minimum for asks |
| OrderBooks.SortedKeys | order_book.py:35-39 | `sorted(keys, reverse=...)`: as many entries as keys, each a key, every key present, in strictly descending (or ascending) order |
| OrderBooks.TopLevels | order_book.py:35-39 | the dict comprehension over `sorted(...)[:depth]`: length `min(depth, n)` for `depth >= 0` and `max(n + depth, 0)` for a negative Python slice bound; every level is a price of the side with its size; prices strictly ordered |
| OrderBooks.TopLevelsAreBest | order_book.py:35-39 | every price left out comes after every price kept, so the levels are exactly the top `depth` |
| OrderBooks.TopLevelsComplete | order_book.py:35-36 | with `depth >= len(side)` every price of the side is returned |
| OrderBooks.TopLevelsStartAtBest | order_book.py:35-36 | with `depth >= 1` and a non-empty side the first level is the best price |
| OrderBooks.LevelMap | order_book.py:69-70 | the keys of `{x[0]: x[1] for x in levels}` are exactly the listed prices |
| OrderBooks.LevelMapLastWins | order_book.py:69-70 | a price listed more than once keeps the size of its last listing |
| OrderBooks.OrderBook.constructor | order_book.py:11-17 | ticker and interval as given, no levels and no update id yet |
| OrderBooks.OrderBook.ApplySnapshot | order_book.py:66-70 | both sides replaced wholesale by the snapshot's levels; the update id overwritten without comparison to the previous one |
| OrderBooks.OrderBook.GetBestBid | order_book.py:85-86 | on a non-empty bid side, a bid price that is at least every bid price |
| OrderBooks.OrderBook.GetBestAsk | order_book.py:88-89 | on a non-empty ask side, an ask price that is at most every ask price |
| OrderBooks.OrderBook.GetBestBids | order_book.py:35-36 | at most `depth` levels, each a bid price with its size, prices strictly descending |
| OrderBooks.OrderBook.GetBestAsks | order_book.py:38-39 | at most `depth` levels, each an ask price with its size, prices strictly ascending |
| OrderBooks.ExtremeKeyAsWritten | order_book.py:85-89 | `max`/`min` over the raw price strings as written: the result is one of the keys, and no key is above it (`max`) or below it (`min`) in lexicographic string order |
| OrderBooks.StringKeysMisorderPrices | order_book.py:69-70 | with bids at "10.01" and "9.99" the string maximum is "9.99" and the string minimum "10.01"; the numeric best bid is 10.01 and best ask 9.99 |
| Avellaneda.Window | avellaneda_with_trend.py:10-13 | the window never holds more values than its capacity, nor more than were appended |
| Avellaneda.WindowIsNewest | avellaneda_with_trend.py:10-13 | the window holds `min(n, length)` values, and they are the newest ones in order |
| Avellaneda.WindowAppend | avellaneda_with_trend.py:10-13 | appending to the window and then evicting the oldest gives the window of the whole history plus the new value, so evicting once per append is enough |
| Avellaneda.WindowFull | avellaneda_with_trend.py:27-28 | the window's length equals the capacity exactly when at least `length` values have been appended |
| Avellaneda.MeanOf | avellaneda_with_trend.py:18-19 | `np.mean`: the mean of equal values is that value |
| Avellaneda.PopulationVariance | avellaneda_with_trend.py:21-22 | the population variance (`np.std(data)**2`, dividing by n) is never negative |
| Avellaneda.ConstantWindowHasZeroVariance | avellaneda_with_trend.py:18-22 | a window of equal values has that value as its mean and variance 0 |
| Avellaneda.CircularBuffer.constructor | avellaneda_with_trend.py:6-8 | an empty window of the given capacity |
| Avellaneda.CircularBuffer.Append | avellaneda_with_trend.py:10-13 | the new contents are the newest `length` values of the old contents plus `x`; length never exceeds the capacity; a ready window stays ready |
| Avellaneda.CircularBuffer.Len | avellaneda_with_trend.py:15-16 | `min(number appended, length)` |
| Avellaneda.CircularBuffer.IsEmpty | avellaneda_with_trend.py:24-25 | empty exactly when nothing was appended or the capacity is not positive |
| Avellaneda.CircularBuffer.IsReady | avellaneda_with_trend.py:27-28 | ready exactly when at least `length` values were appended (with `length >= 0`) |
| Avellaneda.CircularBuffer.Mean | avellaneda_with_trend.py:18-19 | a window of equal values has that value as its mean |
| Avellaneda.MidPrice | avellaneda_with_trend.py:56 | the mid-price is equidistant from bid and ask and, on an uncrossed book, lies between them |
| Avellaneda.SpreadInTicks | avellaneda_with_trend.py:53 | the spread in ticks times the tick size is `ask - bid` |
| Avellaneda.SpreadK | market_maker.py:23-24 | `k * spread == 2` |
| Avellaneda.TighterSpreadLargerK | market_maker.py:23-24 | a tighter positive spread gives a strictly larger k |
| Avellaneda.DriftTerm | avellaneda_with_trend.py:87-88 | the drift term is 0 when mu is 0 (whatever the variance); otherwise `d * gamma * variance == mu` |
| Avellaneda.DriftTermAsWritten | avellaneda_with_trend.py:87-88 | `mu/gamma/variance` exactly as written, also at mu = 0: no number exactly when gamma or the variance is 0, otherwise `d * gamma * variance == mu` |
| Avellaneda.DriftTermAgrees | avellaneda_with_trend.py:87-88 | wherever the as-written drift term is a number, the corrected one equals it |
| Avellaneda.FlatWindowBreaksDriftAsWritten | avellaneda_with_trend.py:78-88 | a flat window has variance 0; the as-written drift term then has no value, the corrected one is 0 |
| Avellaneda.DeltaSum | avellaneda_with_trend.py:87-88 | `delta_bid + delta_ask == 2*log_part + sqrt_part` for every inventory and drift |
| Avellaneda.DeltaBid | avellaneda_with_trend.py:87 | `delta_bid`; when the inventory equals the drift term only the neutral distance `log_part + sqrt_part/2` remains |
| Avellaneda.DeltaAsk | avellaneda_with_trend.py:88 | `delta_ask` is `delta_bid` with inventory and drift negated: the ask mirrors the bid |
| Avellaneda.QuotePrices | avellaneda_with_trend.py:91 | the returned pair is `(sum of the deltas) * spread/2 * ticksize` wide and symmetric about `s` when the deltas agree |
| Avellaneda.Quote | avellaneda_with_trend.py:87-91 | `ask - bid == (2*log_part + sqrt_part) * spread/2 * ticksize`, independent of inventory and drift |
| Avellaneda.ZeroInventorySymmetric | avellaneda_with_trend.py:87-91 | with zero inventory and zero drift the two deltas agree and the quote is symmetric about the mid-price |
| Avellaneda.InventorySkew | avellaneda_with_trend.py:87-91 | one more unit of inventory lowers bid and ask by the same `sqrt_part * spread/2 * ticksize` |
| Avellaneda.BidBelowAsk | avellaneda_with_trend.py:87-91 | with positive log part, spread and tick size and a non-negative sqrt part the bid is below the ask |
| Avellaneda.AvellanedaWithTrend.constructor | avellaneda_with_trend.py:32-40 | no mid-price, zero spread, an empty window of `lookback` increments; gamma, tick size and dt as given |
| Avellaneda.AvellanedaWithTrend.UpdateOrderBook | avellaneda_with_trend.py:49-61 | records bid and ask, spread `(ask-bid)/ticksize`, mid `(bid+ask)/2`; appends `(s - s_prev)/dt` only when a previous mid exists, so the first update appends nothing |
| Avellaneda.AvellanedaWithTrend.GetA | market_maker.py:20-21 | the market depth A is the constant 0.9, as in the base class (avellaneda_with_trend.py:63-64) |
| Avellaneda.AvellanedaWithTrend.GetK | market_maker.py:18-24 | under the spread-derived rule `k * spread == 2` |
| Avellaneda.AvellanedaWithTrend.IsReady | avellaneda_with_trend.py:93-94 | ready exactly when the window has received at least its capacity of increments |
| Avellaneda.AvellanedaWithTrend.GetBidAsk | avellaneda_with_trend.py:72-91 | no quote exactly when the window is empty and neither mu nor variance is supplied; otherwise the width fact above and symmetry at zero inventory and zero drift |
| Avellaneda.MidIncrementScenario | avellaneda_with_trend.py:49-61 | capacity 3, dt 1, mids 100, 101, 102, 100: the window ends as [1, 1, -2] and is ready only after the fourth update |
| MarketMaking.AfterCancel | market_maker.py:56-59 | after a cancel the order is terminal, and a filled or canceled order is unchanged |
| MarketMaking.AfterGuardedFill | market_maker.py:197-198 | the engine's fill leaves an order FILLED exactly when it was SUBMITTED or already FILLED, and changes only a SUBMITTED order |
| MarketMaking.AfterExpiryCheck | market_maker.py:130-134 | an order past its expiry ends terminal; one not yet expired, or already terminal, is unchanged |
| MarketMaking.TerminalIsFinal | market_maker.py:56-59 | once filled or canceled, no sequence of engine cancels and guarded fills changes an order's state |
| MarketMaking.FirstActionDecides | market_maker.py:56-59 | from SUBMITTED the first action decides: cancel then fill ends CANCELED, fill then cancel ends FILLED |
| MarketMaking.AfterFill | market_maker.py:200-206 | a buy adds the quantity to the inventory, a sell removes it; valued at the fill price, equity drops by exactly the commission `q*p*c`; `BOTH` books nothing |
| MarketMaking.Equity | market_maker.py:120-121 | with flat inventory, or a zero mid-price, the equity is the cash |
| MarketMaking.RoundTrip | market_maker.py:196-206 | a buy and a sell of the same quantity at the same price restore the inventory and cost `q*p*2*comission` |
| MarketMaking.FillsCommute | market_maker.py:196-206 | the order in which two fills are booked does not change the account |
| MarketMaking.EquityAfterFill | market_maker.py:120-121 | a buy changes equity by `q*(mid - p) - q*p*c`, a sell by `q*(p - mid) - q*p*c` |
| MarketMaking.Ledger | market_maker.py:196-206 | after any sequence of fills, inventory has moved by the signed quantities and cash by the sum of the per-fill cash changes |
| MarketMaking.Order.constructor | market_maker.py:34-49 | id, ticker, quantity, limit and side as given, expiry `now + expiry`, state SUBMITTED |
| MarketMaking.Order.Submit | market_maker.py:52-53 | the state becomes SUBMITTED |
| MarketMaking.Order.Cancel | market_maker.py:56-59 | a filled or canceled order is unchanged; any other becomes CANCELED |
| MarketMaking.Order.Fill | market_maker.py:63-64 | unguarded: the state becomes FILLED whatever it was |
| MarketMaking.MarketMaker.constructor | market_maker.py:82-101 | gamma 1, tick 0.01, the given lookback, dt 1 for interval 0 and 0.01 otherwise, spread-derived k; zero inventory and cash, no orders, order id 0, expiry 1, quantity 1, commission 0.1% |
| MarketMaking.MarketMaker.IdsUnique | market_maker.py:165-176 | ids follow creation order, so they are strictly increasing and the two slots never hold the same id |
| MarketMaking.MarketMaker.GetEquity | market_maker.py:120-121 | with no mid-price yet, or flat inventory, equity is the cash |
| MarketMaking.MarketMaker.Fill | market_maker.py:196-206 | a submitted order becomes FILLED and is booked through the fill accounting; any other order, its state and the account are unchanged |
| MarketMaking.MarketMaker.CheckExpiry | market_maker.py:123-134 | nothing changes unless both slots are occupied; then each order with `expiry_time < now` is canceled and the other left alone |
| MarketMaking.MarketMaker.ReplaceIfRepriced | market_maker.py:160-168 | one side of requote: an order whose limit equals the fresh price is kept with no new id; otherwise the old order (if any) is canceled, a new one with the current id takes the slot, the id grows by one, and the order is filled at once exactly when marketable |
| MarketMaking.MarketMaker.Requote | market_maker.py:157-178 | both sides (or the one asked for) follow the rule above, priced from the quote at the inventory before the call: a kept order is untouched, a replaced one ends canceled, each new order gets the next id (buy first) and is fresh, `issued` grows by exactly the new orders, and the account changes by exactly the marketable fills |
| MarketMaking.MarketMaker.ReactToBook | market_maker.py:139-155 | after the generator update: the expiry check, then no requote (slots, states after expiry, ids and account as they were) when the generator is not ready, both sides were resting, or the spread is 0; otherwise requote of both sides with everything `Requote` promises |
| MarketMaking.MarketMaker.OnOrderbookUpdate | market_maker.py:136-155 | feeds the best bid and ask to the generator (new mid, spread, one increment once a previous mid exists) and then reacts as `ReactToBook` states: when it requotes, a side whose order was replaced ends with its old order canceled and a fresh order with the next id, `orderId` grows by the number of new orders, and the account moves by exactly the marketable fills; a kept order stays in the state the expiry check left it in |
| MarketMaking.MarketMaker.OnTradeUpdate | market_maker.py:211-221 | fills the buy order exactly when it exists, is SUBMITTED and `price <= limit`, the sell order exactly when it exists, is SUBMITTED and `price >= limit`, and books those fills and nothing else |

## Left out

- Exchange I/O (the REST client, the websocket managers, the update loops, `recv`) and the `__main__` entry points are not modelled. A snapshot is the input of `ApplySnapshot`, and a trade is the price given to `OnTradeUpdate`.
- The callbacks the order book uses to notify the market maker are not modelled. In the model the order book is read directly.
- Concurrency is not modelled. Every handler is a sequential chain of awaits and is modelled as one method.
- All CSV logging and printing are left out, because they are file side effects only: `write_trade`, `init_logs`, `write_state`, `write_orderbook`, `write_trade_activities` and `print_best_bid_ask`.
  - As written, `write_state` reads the generator's `vwap` attribute (market_maker.py:190), which is never defined. `on_orderbook_update` awaits it (market_maker.py:150) as soon as the generator is ready, before the both-submitted check and before `requote`. So as written every update on a ready generator raises `AttributeError`, and the source never requotes. The model follows the evident intent of lines 152-155: log, then carry on.
  - Every `Order` also truncates `orders.csv` when it is created (market_maker.py:43).
- `time.time()` is the parameter `now`.
- The transcendental and floating-point numerics are left out: `np.log`, `np.sqrt` and `**` with a real exponent. `log_part` and `sqrt_part` are inputs of `GetBidAsk`, `Requote` and `OnOrderbookUpdate`. Floating-point rounding is not modelled, and prices are reals.
- `round_to_tick` (avellaneda_with_trend.py:69-70) is never called and is not modelled.
- `CircularBuffer.std` becomes the population variance `PopulationVariance`. The model uses the variance directly, without the square root.
- The generator's `mu` and `sigma` fields and `set_a_rule`/`set_k_rule` are never read by the modelled code and are not modelled.
- `MarketMaking.MarketMaker.constructor`: requires `lookback > 0`. With a window of capacity 0 the generator is ready at once but its window stays empty. `get_bid_ask` then returns `(None, None)`. `requote` would store `None` as a limit, and the marketability test `order.limit >= best_bid` would then raise `TypeError` (market_maker.py:167). A negative lookback is excluded too. In the source it never crashes: the window can never hold a negative number of elements, so `is_ready` (avellaneda_with_trend.py:27) stays false and the maker never quotes.
- `MarketMaking.MarketMaker.OnOrderbookUpdate`: a spread of 0 ends the handler with the reaction `ZeroSpread` before requoting. This is where `get_k` raises `ZeroDivisionError` in the source. The exception itself is not modelled.
- `MarketMaking.MarketMaker.OnOrderbookUpdate`: requires both book sides to be non-empty. `max`/`min` of an empty key list raise in the source, and that failure is not modelled.
- `Avellaneda.AvellanedaWithTrend.GetBidAsk`: past the early return, it requires five things. The cases it excludes, and what the source does in each, are not modelled:
  - a mid-price. Without one, `self.s - ...` raises `TypeError` (avellaneda_with_trend.py:91) when mu or a variance is supplied before the first update; bid_ask_curve.py sidesteps this by setting `s`;
  - a non-zero gamma;
  - a computable k. A zero spread divides by zero in `get_k`;
  - a non-empty window when mu is given but the variance is not. `np.std([])` is NaN with a warning, so the source quotes NaN prices;
  - a non-zero variance when mu is non-zero. The division at lines 87-88 is then by zero.
- `Avellaneda.AvellanedaWithTrend.GetBidAsk`: computes the quote with the corrected `DriftTerm` (see Findings), not the as-written one. On a window with variance 0 and the default mu, the source computes `0.0/np.float64(0.0)`, which is NaN, and returns NaN prices. `requote` then finds `bid != limit` every time (market_maker.py:162) and places orders with NaN limits (165, 175). A `>=`/`<=` test against NaN never fills them (167, 177), and neither does `on_trade_update`. The model instead quotes finite prices there, and `Requote`, `ReactToBook` and `OnOrderbookUpdate` inherit that corrected path.
- `OrderBooks.OrderBook.constructor`: the book starts with empty sides. In the source the `bids`/`asks` attributes do not exist before the first snapshot.
- The order book's price keys are numbers in the model. The source keeps the feed's raw price strings as keys (see Findings). Those strings would also reach the generator's subtraction in `update_order_book`, a `TypeError` the model does not reproduce.
- backtest.py, the plotting scripts and the test scripts are not part of this model. They are harnesses around the core.

## Findings

| source | as written | input that shows it | evidently intended | confidence | as-written member | corrected member |
|---|---|---|---|---|---|---|
| order_book.py:69-70 | the book keys are the raw price strings `x[0]`, so `max`/`min`/`sorted` compare them lexicographically | bids at "10.01" and "9.99": the string maximum is "9.99", and asks at the same prices give "10.01" as the minimum | best bid and best ask are the numerically highest bid and lowest ask | not executed | OrderBooks.StringKeysMisorderPrices | OrderBooks.OrderBook.GetBestBid |
| avellaneda_with_trend.py:87-88 | `-mu/self.gamma/variance` is evaluated even when `mu` has its default 0 | a window of equal increments (a mid-price that did not move) has variance 0, so the drift term is 0/0: NaN for numpy's variance, and the quote becomes NaN | with no drift the drift term is 0 whatever the variance | not executed | Avellaneda.FlatWindowBreaksDriftAsWritten | Avellaneda.DriftTerm |
