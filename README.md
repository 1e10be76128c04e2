# KuCoin bot backend: the evaluation engine, in Dafny

This project models the decision engine of the trading-bot backend in
`app.py`. It has two parts:

- The technical-indicator helpers: `sma`, `ema`, `compute_sma_list`,
  `macd_line`, `rsi` and `atr`.
- `evaluate_user_strategy`, one evaluation cycle for one user's ledger.

The cycle's steps run in a fixed order:

1. The entry gate.
2. Equity and the high-water mark.
3. The global stop, which returns early.
4. The pyramided buy.
5. A pass over the positions: a tiered partial sell or, failing that, the
   trailing stop, then the time stop.
6. The monthly deposit.

The model is spread over these files:

- `options.dfy`: the `Option` type.
- `config.dfy`: the constants of `app.py:41-54`.
- `indicators.dfy`: the indicators over exact reals.
  - `sma` and `compute_sma_list` are functions.
  - `ema`, `macd_line`, `rsi` and `atr` run accumulator loops. Each is a
    method whose loop is proved equal to a specification function
    (`EmaOf`, `MacdLineOf`, `RsiOf`, `AtrOf`).
  - The indicators' properties are lemmas about those functions.
- `ledger.dfy`: one user's account.
  - The `users` row, the user's `positions` rows and the append-only
    `history` rows.
  - The CRUD helpers as pure state transformers.
  - The table invariant `Valid`: ids are distinct and below the id counter,
    and no position was bought at price 0.
- `strategy.dfy`: the cycle as a pure function `Evaluate` from the old
  account to the new account and an outcome.
  - It is built from one function per step, in the source's order.
  - `sell_portion`, `next_pyramid_lot` and `round(x, 2)` are abstract
    functions carried in a `Rules` value, because the file does not define
    the first two.
- `strategy_proofs.dfy`: the properties of the cycle, together with the
  lemmas about the steps that they rest on.
- `engine.dfy`: the cycle as it runs.
  - `UserLedger` is a class whose fields the CRUD methods update in place.
  - Its `Evaluate` method performs the steps with loops over the positions.
    It is proved to leave exactly the state that `Strategy.Evaluate`
    describes, and to keep `Valid`.
  - `ReadSignals` computes the indicators from the two candle series.
    It calls the indicator methods and is proved equal to
    `Strategy.SignalsOf`.

Time is a whole number of days supplied by the caller. Candles and prices
are parameters. The order gateway's result never gates a mutation in the
source, so the gateway is left out and cash is credited or debited
unconditionally.

Behaviours of the code worth noting:

- `if user["max_equity"]` is Python truthiness, so the global stop is tested
  whenever the high-water mark is non-zero (`GlobalStopFires`).
- The exit pass does not filter positions by symbol. It visits every row,
  and the history row carries each position's own symbol.
- The time stop works from the snapshot row read before the pass. After a
  partial sell or a trailing-stop exit of the same position it still sells
  half of the original quantity. If the row still exists, it writes that
  half and the original stop back to it. If the trailing-stop exit, or a
  partial sell that left nothing, has deleted the row, its update matches
  no row and changes nothing. Lemmas state this instead of correcting it.
- `next_lot` is reset to PIRAMIDE_START inside the liquidation loop, once
  per sold position. When the global stop fires with no open position,
  nothing is sold and the lot is kept (`GlobalStopLiquidatesAll`).
- Once the global stop fires, the liquidated account holds only cash below
  75% of an unchanged high-water mark, so every later cycle with a price
  stops again. Buys and deposits are then skipped for good
  (`GlobalStopIsAbsorbing`).
- `atr` is only consulted when it is non-zero (`if atr_val:`). It is then
  divided by the price, so a price of 0 raises ZeroDivisionError before
  anything is written. A buy at price 0 fails the same way at
  `adj_lot / price`. Both cases are the `DivisionByZero` outcome, which
  keeps the high-water update already made.

## Model

| member | source | states |
|---|---|---|
| Indicators.Sma | app.py:202-205 | `None` exactly when there are fewer than `period` values |
| Indicators.SmaWithin | app.py:202-205 | with enough values, the average lies between any lower and upper bound of the last `period` values |
| Indicators.SmaList | app.py:216-217 | one entry per input value; entry `i` is the `sma` of the prefix ending at `i`, so `None` before the first full window |
| Indicators.EmaOf | app.py:207-209 | `None` exactly when there are fewer than `period` values |
| Indicators.Ema | app.py:207-214 | the loop returns the recurrence `ema = v*k + ema*(1-k)`, seeded with the first value and run over the rest |
| Indicators.SmoothingInUnit | app.py:210 | `2/(period+1)` lies in (0, 1] for a positive period |
| Indicators.EmaWithin | app.py:207-214 | the EMA stays between any bounds of the series it smooths |
| Indicators.EmaFoldConstant | app.py:212-213 | the recurrence over a constant series, seeded with that constant, stays at that constant |
| Indicators.EmaFoldSeedFirst | app.py:211-213 | running the recurrence over the seed itself first changes nothing, so seeding `ema_f` with `values[0]` and looping over all values matches `ema` |
| Indicators.EmaArrays | app.py:222-236 | the first loop of `macd_line` builds the running fast and slow EMA lists |
| Indicators.MacdLineOf | app.py:219-222 | `None` (Python's `(None, None)`) exactly when there are fewer than `slow + signal` values |
| Indicators.SignalLine | app.py:238-240 | the signal loop returns the EMA of the MACD list, seeded with its first element |
| Indicators.MacdLine | app.py:219-242 | the method returns the last MACD value and the signal line as `MacdLineOf` defines them |
| Indicators.MacdLineIsEmaDifference | app.py:219-242 | the returned MACD value equals `ema(values, fast) - ema(values, slow)` |
| Indicators.MacdOfConstant | app.py:219-242 | a constant price series gives MACD 0 and signal 0 |
| Indicators.RsiOf | app.py:244-246 | `None` exactly when there are fewer than `period + 1` values |
| Indicators.Rsi | app.py:244-260 | the delta loop splits the last `period` changes into gains and absolute losses, then applies the averaging formula |
| Indicators.AverageSign | app.py:255-256 | an average of non-negative moves is non-negative, and zero exactly when they sum to zero |
| Indicators.RsiFormulaRange | app.py:259-260 | with a positive average loss, `100 - 100/(1 + rs)` lies in [0, 100) |
| Indicators.LossesZeroIff | app.py:249-254 | the losses sum to zero exactly when no change is negative |
| Indicators.RsiFromListsRange | app.py:255-260 | the result lies in [0, 100] and is 100 exactly when the losses sum to zero |
| Indicators.NoLossIff | app.py:247-252 | "no loss" means none of the last `period` changes is negative |
| Indicators.RsiRange | app.py:244-260 | with enough values, RSI lies in [0, 100] and equals 100 exactly when no change in the window is a loss (so it is below 100 otherwise) |
| Indicators.TrueRange | app.py:267-271 | a true range is never below the candle's own `high - low`, nor below zero |
| Indicators.TrueRangesAt | app.py:266-272 | the `k`-th true range compares candle `k+1` with the close of candle `k` |
| Indicators.AtrOf | app.py:262-265 | `None` exactly when there are fewer than `period + 1` candles; a zero period is accepted with no candles, where it returns `None` |
| Indicators.Atr | app.py:262-274 | the loop collects one true range per candle after the first; the result is the mean of the last `period` |
| Indicators.AtrAtLeast | app.py:262-274 | ATR is never negative, and it is at least `d` when every candle of the window spans at least `d` |
| Ledger.NewAccount | app.py:155-161 | a new user starts with no positions or history, cash = balance = high-water mark = the initial balance, and next lot PIRAMIDE_START |
| Ledger.Without | app.py:195-196 | deleting by id keeps exactly the rows with another id |
| Ledger.UpdatePositionSpec | app.py:189-193 | a quantity `<= 0` deletes the row; otherwise only that row's quantity and stop change; nothing outside the positions changes |
| Ledger.UpdateOfMissingIdIsNoop | app.py:189-196 | updating or deleting an id that has no row leaves the ledger unchanged |
| Ledger.UpdatePositionKeepsValid | app.py:189-193 | the update keeps the ids unique and below the counter |
| Ledger.DeletePositionKeepsValid | app.py:195-196 | deleting keeps the table invariant |
| Ledger.AddPositionKeepsValid | app.py:181-183 | inserting with the next id keeps the table invariant, and that id was unused |
| Ledger.UpdateUserBalanceAndLot | app.py:163-171 | sets balance and cash; an absent lot or high-water mark keeps the stored value; positions, history, id counter and deposit date are untouched |
| Ledger.SaveHistory | app.py:173-175 | appends exactly one row with the given fields, stamped today; nothing else changes |
| Ledger.AddPosition | app.py:181-183 | appends exactly one row, carrying the next id and entered today, and advances the counter; nothing else changes |
| Ledger.DeletePosition | app.py:195-196 | keeps exactly the rows with another id, so the id is gone; nothing outside the positions changes |
| Ledger.UpdatePositionQtyAndStop | app.py:189-193 | a quantity `<= 0` is the delete; otherwise every row keeps its place and id, rows of other ids are unchanged, and that id's row gets the new quantity and stop; nothing outside the positions changes |
| Engine.UserLedger.constructor | app.py:155-161 | the object starts in the state `create_user_db` writes |
| Engine.UserLedger.UpdateUserBalanceAndLot | app.py:163-171 | sets balance and cash; an absent lot or high-water mark keeps the stored value |
| Engine.UserLedger.SaveHistory | app.py:173-175 | appends one row stamped with the current day |
| Engine.UserLedger.AddPosition | app.py:181-183 | appends a row with the next id, entered today |
| Engine.UserLedger.DeletePosition | app.py:195-196 | removes the rows with that id |
| Engine.UserLedger.UpdatePositionQtyAndStop | app.py:189-193 | deletes the row when the quantity is `<= 0`, otherwise rewrites quantity and stop |
| Engine.ReadSignals | app.py:384-399 | computes the indicators with the source's fallbacks for short series (sma(50) for mm200, sma(10) for mm50, MACD from 35 weekly closes, RSI from 15, ATR from 15 daily candles, price from the last daily close or else the last weekly close) |
| Strategy.SignalsOf | app.py:384-399 | each indicator is present exactly when its series is long enough (mm200 from 50 daily closes through the fallback, mm50 from 10, MACD from 35 weekly closes, RSI from 15, ATR from 15 daily candles); the price is the last daily close, falls back to the last weekly close when there are no daily candles, and is absent only when both series are empty |
| StrategyProofs.GateShutOnShortHistory | app.py:388-407 | with fewer than 200 daily or 35 weekly candles the gate is shut (the mm200 fallback never exceeds mm50 in that case, or MACD is absent) |
| Strategy.EntryGate | app.py:402-407 | an open gate implies all four indicators are present |
| StrategyProofs.RsiAdjustmentIsDead | app.py:441-446 | inside the buy branch the weekly RSI is in [50, 70], so neither lot adjustment can fire |
| Strategy.Equity | app.py:412-415 | with a non-negative price and quantities, equity is at least the cash |
| Engine.UserLedger.CurrentEquity | app.py:412-415 | the loop returns cash plus every position's quantity at the current price |
| Strategy.HighWater | app.py:416-419 | only the high-water mark changes, to a value at least the old mark and the equity and equal to one of them |
| StrategyProofs.HighWaterMark | app.py:416-419 | the stored high-water mark becomes max(old, equity) and never decreases over a cycle |
| Strategy.RaisedStop | app.py:496-500 | the new stop is never below the old one; it is 90% of the price or the old stop; it is raised only when the price is above entry |
| Strategy.LiquidateOne | app.py:424-432 | one liquidation credits `qty * price`, resets the lot to PIRAMIDE_START, appends one `stop_global_sell` row and tag, and deletes that id's row; balance, high-water mark, deposit date and id counter are untouched |
| Strategy.Liquidate | app.py:423-432 | an empty snapshot changes nothing; a non-empty one leaves the lot at PIRAMIDE_START; balance, high-water mark, deposit date and id counter are untouched |
| Engine.UserLedger.LiquidateOne | app.py:424-432 | the method leaves the state of one `LiquidateOne` step |
| StrategyProofs.LiquidateSpec | app.py:423-432 | the liquidation loop credits every snapshot position at the price, writes one `stop_global_sell` row and one tag per position, and resets the lot when the snapshot is non-empty |
| StrategyProofs.LiquidateRows | app.py:431 | the loop deletes exactly the snapshot's ids |
| Engine.UserLedger.LiquidateAll | app.py:423-432 | the method's loop leaves the state the liquidation fold describes |
| StrategyProofs.GlobalStopIff | app.py:421 | the cycle ends in the global stop exactly when the high-water mark is non-zero and equity is below 75% of it |
| StrategyProofs.GlobalStopLiquidatesAll | app.py:421-433 | when it fires, no position is left, cash equals the equity, one row per position is written and neither buy nor deposit happens; the lot becomes PIRAMIDE_START when at least one position was sold and is kept otherwise |
| StrategyProofs.GlobalStopIsAbsorbing | app.py:412-433 | after a global stop, every later cycle with a price stops again and changes nothing |
| Strategy.BuyStep | app.py:436-470 | ZeroDivisionError happens exactly when the gate is open at price 0 and either the ATR is truthy or the cash and lot test passes; a shut gate changes nothing; a buy never raises the cash, adds at most one position and one history row, and leaves balance, high-water mark and deposit date alone |
| StrategyProofs.BuyRule | app.py:436-470 | at price 0 with the gate open, ZeroDivisionError comes exactly when the ATR is truthy or the cash and lot test passes, and otherwise only the not-enough-cash tag is added; at a non-zero price a buy happens exactly when the gate is open, cash >= lot and lot >= 1; it then spends exactly the lot, adds a row at the price with stop 0.9 * price, sets the next pyramid lot and appends one `buy` row; otherwise only the tag is added |
| StrategyProofs.FirstBuyScenario | app.py:436-468 | a fresh account at price 50000 buys 0.0008 for 40 USD, keeps 60 in cash, sets the stop at 45000 and 52 as the next lot |
| StrategyProofs.BuyKeepsSolvent | app.py:455-463 | the buy never takes cash below zero and adds a positive quantity |
| Engine.UserLedger.TryBuy | app.py:436-470 | the buy method reports the division by a zero price and otherwise leaves the state `BuyStep` describes |
| Strategy.ExitBranch | app.py:475-512 | the partial sell or trailing step appends at most one history row and touches neither balance, high-water mark, deposit date, lot nor id counter |
| Engine.UserLedger.SellOrTrail | app.py:475-512 | the method leaves the state of `ExitBranch` |
| Engine.UserLedger.PartialSell | app.py:479-491 | with a positive sell portion, the method leaves the state of `ExitBranch` |
| Engine.UserLedger.Trail | app.py:493-512 | with no positive sell portion, the method leaves the state of `ExitBranch` |
| StrategyProofs.ExitBranchesExclusive | app.py:479-512 | each position gets at most one of the partial-sell and trailing-stop rows; the partial sell happens exactly when `sell_portion > 0`, sells `qty * sell_pct`, and leaves the row with the rest and its old stop or deletes it when nothing is left; the trailing exit sells the whole quantity and removes the row |
| StrategyProofs.PartialSellEffect | app.py:479-491 | the partial sell credits `sell_qty * price`, writes one `partial_sell` row and tag for `sell_qty = qty * sell_pct`, and keeps the row with `qty - sell_qty` and its stop, or deletes it when that is not positive |
| StrategyProofs.TrailingStopHeld | app.py:493-512 | a position that is neither sold nor stopped keeps its quantity and gets the raised stop |
| StrategyProofs.TimeStopAfterTrailingExit | app.py:502-527 | after a trailing exit the time stop still credits half of the snapshot quantity (1.5 times the holding is paid out), and its update of the deleted row does nothing |
| StrategyProofs.TimeStopAfterPartialSell | app.py:479-527 | after a partial sell the time stop writes back half of the snapshot quantity and the snapshot stop |
| Strategy.TimeStop | app.py:514-527 | a time stop that does not fire changes nothing; one that fires appends exactly the `time_stop_partial_sell` row for half the snapshot quantity at the price, adds the `time_stop_partial` tag, and touches neither balance, high-water mark, deposit date, lot nor id counter |
| Engine.UserLedger.TimeStop | app.py:514-527 | the method leaves the state of `TimeStop` |
| Engine.UserLedger.ExitPosition | app.py:474-527 | one iteration leaves the state of the exit branch followed by the time stop for the snapshot row |
| StrategyProofs.TimeStopHalves | app.py:514-527 | a firing time stop credits half of the snapshot quantity, keeps the set of ids, leaves that id's row, if any, with half the snapshot quantity and the snapshot stop, appends one `time_stop_partial_sell` row for half the snapshot quantity, and adds the `time_stop_partial` tag |
| StrategyProofs.TimeStopRevertsRaisedStop | app.py:496-525 | a stop raised in this pass is reset to the snapshot stop when the time stop fires |
| StrategyProofs.ExitPositionRows | app.py:473-527 | one iteration leaves other rows untouched and keeps the table invariant |
| StrategyProofs.ExitPassCash | app.py:473-527 | with non-negative prices and sell portions, the exit pass never lowers cash |
| Strategy.ExitPass | app.py:473-527 | the pass keeps balance, high-water mark, deposit date, lot and id counter, and appends at most two history rows per snapshot position |
| Engine.UserLedger.ExitAll | app.py:473-527 | the loop over the snapshot leaves the state the exit fold describes |
| StrategyProofs.TrailingStopsNeverLowered | app.py:473-527 | no stored trailing stop is below the stop its id had before the cycle |
| Strategy.DepositStep | app.py:529-540 | a deposit that is not due changes nothing; the deposit date becomes today exactly when due; cash never decreases; positions, lot, high-water mark, balance and id counter are untouched |
| StrategyProofs.DepositStepSpec | app.py:530-540 | a due deposit adds MONTHLY_DEPOSIT, moves the date to today and appends one row and tag; otherwise nothing changes |
| StrategyProofs.MonthlyDepositRule | app.py:529-542 | a completed cycle deposits exactly when 30 days have passed; any other outcome leaves the deposit date alone |
| Engine.UserLedger.MonthlyDeposit | app.py:529-540 | the method leaves the state of the deposit step |
| Strategy.Evaluate | app.py:364-542 | the "no price data" result comes exactly when there is no price, and then nothing changes; ZeroDivisionError comes exactly when the price is 0, the global stop does not fire, the gate is open, and either the ATR is truthy or the cash and lot test passes; it leaves only the high-water mark changed; a completed cycle reports the final cash and, as `equity`, the equity valued at the price before any trade; the high-water mark and the id counter never decrease |
| StrategyProofs.EvaluateKeepsLedger | app.py:364-542 | a cycle keeps the table invariant, and history only grows with rows stamped today |
| StrategyProofs.CycleKeepsSolvent | app.py:364-542 | with a non-negative price and non-negative sell portions, cash stays non-negative and every stored quantity stays positive |
| Engine.UserLedger.Evaluate | app.py:364-542 | the method keeps `Valid` and leaves exactly the account and outcome `Strategy.Evaluate` gives |

## Left out

- HTTP endpoints, the Flask app and the `http_deposit` handler (app.py:571-631): request plumbing.
- The background `strategy_loop` thread (app.py:548-566): concurrency and sleeping.
- The order client and `place_market_order_huobi` (app.py:16-25, 64-72, 325-359). This is a foreign SDK. Its result is never read before a mutation, so it is left out entirely.
- `fetch_klines` (app.py:279-320), including its simulated series. The candles are parameters instead.
- SQLite and `db_execute` (app.py:78-137). The tables are fields, in insertion order. `get_positions` has no ORDER BY, and insertion order is the order SQLite returns in practice.
- `get_user`, `get_positions` and `get_history` are read-only queries. The first two are reads of the fields. `get_history` (newest first) is not modelled.
- The `info` column of `history`, and the `last_profit_check_price` and `last_checked` columns of `positions`: nothing in the cycle reads them.
- Timestamps. `datetime.utcnow()` and ISO parsing become whole day counts passed by the caller. `age_days` and the 30-day deposit test are then differences of day counts.
- Floating point. Indicators and money are exact reals. `round(x, 2)` is the abstract `Strategy.Round2`.
- The bodies of `sell_portion` and `next_pyramid_lot`. They are not in the file, so they stay abstract. The solvency lemmas assume sell portions are never negative.
- Strategy.Evaluate: the "user not found" error, because the ledger always exists in the model.
- `create_user_db` for an existing user returns that user unchanged. Only the insertion of a new user is modelled.
- The `email` column of `users`: nothing in the cycle reads it.
- The default `initial_balance` of `create_user_db` (DEFAULT_INITIAL_BALANCE, app.py:38). `Ledger.NewAccount` and the `UserLedger` constructor take the balance explicitly.
- `if last_dep:` is always true, because `create_user_db` always sets the deposit date.
- `user["cash"]` is re-read before every write in the source. This matches reading the current field, so no stale copies are modelled, except the position snapshots, which the source really does use.
- Indicators.Ema: an empty series with a zero period raises IndexError in the source. The precondition excludes that input.
- Indicators.MacdLine: an empty series with `slow + signal == 0` raises IndexError in the source. The precondition excludes that input.
- Indicators.Sma, Indicators.SmaList: a zero period divides by zero in the source. The precondition excludes it (`SmaList` accepts it on an empty list, which the source maps to `[]`).
- Indicators.AtrOf, Indicators.Atr: a zero period with at least one candle divides by zero in the source. The precondition excludes that input; with no candles the source returns `None`, and so does the model.
