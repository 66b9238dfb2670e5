# BTCUSD SmartBot: risk and stop-management core in Dafny

This project models the decision core of the BTCUSD SmartBot trading bot and proves properties of it:

- **RiskManager**, in `risk_manager.dfy`. It covers fixed-fractional position sizing, the three-rule trade validation, the risk/reward ratio and the trailing-stop candidate. These are pure functions over a `TradingConfig` record (`settings.dfy`).
- **PositionTracker**, in `position_tracker.dfy`. It is a class whose `positions` map is updated in place: add (which overwrites), remove, stop update, lookups, the capacity check, and the P&L computation. The P&L computation also records in the stored record the best and worst P&L seen, each starting from 0, so the best is never below 0 and the worst never above 0.
- **TrailingStopManager and BreakevenManager**, in `trailing_stop.dfy`. These are classes holding per-position flag maps.
  - Each flag map is a one-way state machine, cleared only by a reset.
  - The stop update runs the monotonicity check and folds the exchange callback's outcome into a boolean.
- **BTCSmartBot**, in `btc_smartbot.dfy`, covers four things:
  - the bar detector on `last_bar_time`, with `datetime` modelled in `clock.dfy`;
  - the gating of `execute_trade`;
  - the per-cycle `manage_open_positions`;
  - the entry-price choice and the entry-signal dispatch.
- **Shared pieces**, in `common.dfy`: `Option`, the side a position type string denotes, ASCII lower-casing, and Python's `round(x, d)`.

## Modelling choices

- **Numbers.** Prices, sizes and percentages are `real`.
  - `round(x, d)` is defined as exact round-half-even on reals.
  - Every property stated about it uses only its error bound of half a unit in the last place kept. The exceptions are the concrete examples `BuyCandidateMayNotTighten` and `RoundedBuyCandidateRefused`, which use its exact value at 99.004.
- **Collaborators from indicators.py.** indicators.py is not part of this model, and no formula is invented for it.
  - `MarketAnalyzer.calculate_position_profit` is a function value `profitOf`. Each manager receives it at construction, and it is assumed only to return a value.
  - `calculate_dynamic_stops` is replaced by the `stopLoss`/`takeProfit` parameters of `ExecuteTrade`.
  - The EMA crossover and the volatility check are boolean inputs of `EntrySignal`.
- **Exchange and clock.** These become parameters:
  - the exchange-update callback is an `ExchangeOutcome` (none given, returned a boolean, raised);
  - live order placement is an `OrderOutcome` (an order id, or raised);
  - the paper-trade id `paper_<time>` is the parameter `paperId`;
  - the current time passed to `is_new_bar` is a `DateTime` parameter;
  - the quote is the `bid`/`ask` parameters;
  - the answer of `update_balance` is the field `BTCSmartBot.balance`. No method of the model sets it: a caller assigns it, and the contract of `ExecuteTrade` holds for whatever value it has.
- **Position types.** A position type is a string, compared after ASCII lower-casing with `"buy"` and `"sell"` (`SideOf`). Any other string is `Unrecognized`, and every operation gives it the source's fall-through behaviour.
- **Behaviours of the code worth noting.** These are stated as proved properties:
  - With a `"4h"` or `"1d"` primary timeframe, the bar minute always floors to 0. A new bar is therefore detected every hour, not every 4 hours or every day (`LongTimeframesFloorToTheHour`, `FourHourTimeframeSeesHourlyBars`).
  - `get_breakeven_price` adds the commission buffer for either side. A short stopped at that price loses the buffer (`ShortBreakevenLoses`).
  - A buy's trailing candidate is compared before rounding, so the offered stop may not lie above the current one. `_validate_stop_update` then refuses it (`BuyCandidateMayNotTighten`, `RoundedBuyCandidateRefused`).
  - `manage_open_positions` never writes an accepted trailing stop back to the tracker. The model keeps that behaviour and proves that every tracked stop survives a management cycle unchanged.

## Model

| member | source | states |
|---|---|---|
| Common.SideOf | risk_manager.py:182-194 | a type string is a buy exactly when its lower-cased form is "buy", a sell exactly when it is "sell", otherwise unrecognised |
| Common.Round | risk_manager.py:56 | `round(x, d)` lies within half a unit of the d-th decimal of x |
| RiskManager.PositionSize | risk_manager.py:42-71 | the size is never below MIN_ORDER_SIZE; a zero stop distance gives exactly MIN_ORDER_SIZE; otherwise the 6-decimal rounding of risk amount / distance × leverage, raised to the minimum when below it |
| RiskManager.PositionSizeCarriesNominalRisk | risk_manager.py:42-56 | an unclamped size loses at the stop the nominal risk amount × leverage, up to the rounding of the size times the distance |
| RiskManager.RawSizeCarriesRisk | risk_manager.py:42-53 | before rounding, the size times the stop distance is exactly the risk amount times leverage |
| RiskManager.PositionSizeNeverUnderRisks | risk_manager.py:42-64 | whatever the clamp does, the size never loses at the stop less than the nominal risk (beyond rounding) |
| RiskManager.PositionValue | risk_manager.py:73-84 | the value of a position is non-negative for non-negative size and price, is 0 at a price of 0, and otherwise divided by the price gives back the size |
| RiskManager.ValidateTrade | risk_manager.py:105-122 | each of the four outcomes holds exactly when its rule is the first to fail (or none fails), in the source's order, with the figures of the message |
| RiskManager.ValidationAtModestLeverage | risk_manager.py:109-122 | at leverage ≥ 0.5 and a non-negative balance a trade passes exactly when it meets the minimum and is worth at most half the balance |
| RiskManager.ValidationIgnoresRiskPercent | risk_manager.py:117-119 | the risk amount computed during validation has no effect on the verdict |
| RiskManager.SizedTradeMeetsMinimum | risk_manager.py:59-64 | a size from position sizing is never refused for being below the minimum |
| RiskManager.ValidationExample | risk_manager.py:109-111 | 0.1 BTC at 50000 on a balance of 1000 exceeds the 1000 maximum with a value of 5000 |
| RiskManager.RiskRewardRatio | risk_manager.py:141-147 | the ratio is never negative, is 0 for zero risk, and otherwise times the risk distance gives the reward distance |
| RiskManager.ShouldTrailStop | risk_manager.py:159 | trailing is due exactly when the profit percentage reaches TRAIL_START_PERCENT |
| RiskManager.TrailingStopCandidate | risk_manager.py:180-196 | no candidate for an unrecognised type; for a buy a candidate exactly when the unrounded trail is above the stop, for a sell exactly when it is below or no stop is set; the value is the 2-decimal rounding of the trail |
| RiskManager.BuyCandidateMayNotTighten | risk_manager.py:182-187 | a buy whose trail is 99.004 over a stop of 99 is offered exactly 99 |
| PositionTracking.NewPosition | risk_manager.py:216-225 | a new record has both extrema at 0 |
| PositionTracking.PnlOf | risk_manager.py:267-278 | no P&L for an unrecognised type; a buy gains (price − entry) × size, a sell (entry − price) × size |
| PositionTracking.PnlOppositeSides | risk_manager.py:273-276 | a buy and a sell of the same entry and size have opposite P&L, both 0 at the entry |
| PositionTracking.RecordExtrema | risk_manager.py:280-286 | the recorded extrema bracket the new P&L, only widen, and change nothing else |
| PositionTracking.RecordExtremaCommutes | risk_manager.py:280-286 | the extrema after two P&L values do not depend on their order |
| PositionTracking.RecordedAllBracketsEveryPnl | risk_manager.py:252-288 | over any sequence of P&L checks the extrema bracket every P&L seen and each is either its start or one of them |
| PositionTracking.PositionTracker.constructor | risk_manager.py:202-203 | a new tracker holds no positions |
| PositionTracking.PositionTracker.AddPosition | risk_manager.py:205-225 | the id maps to the given fields with zero extrema, overwriting any record; other ids unchanged; the count grows by one unless the id was tracked |
| PositionTracking.PositionTracker.RemovePosition | risk_manager.py:228-232 | only that id is forgotten; an untracked id changes nothing |
| PositionTracking.PositionTracker.UpdatePositionStop | risk_manager.py:234-238 | only the stop of that id changes; an untracked id changes nothing |
| PositionTracking.PositionTracker.GetPosition | risk_manager.py:240-242 | the record of a tracked id, none otherwise |
| PositionTracking.PositionTracker.GetAllPositions | risk_manager.py:244-246 | all tracked records |
| PositionTracking.PositionTracker.GetPositionCount | risk_manager.py:248-250 | the number of tracked ids |
| PositionTracking.PositionTracker.IsMaxPositionsReached | risk_manager.py:290-292 | reached exactly when the count is at least the maximum |
| PositionTracking.PositionTracker.CalculatePositionPnl | risk_manager.py:252-288 | none and no change for an unknown id or type; otherwise the side's P&L, recorded into the extrema, which then bracket it and zero |
| TrailingStop.ActivationStep | trailing_stop.py:47-68 | one activation check changes at most the flag of its own id and keeps the map holding only true |
| TrailingStop.ActivationStepMeaning | trailing_stop.py:47-68 | disabled trailing answers false and changes nothing even for a flagged id; otherwise the answer is the flag afterwards, set exactly when it was set or the profit reaches TRAIL_START_PERCENT |
| TrailingStop.ActivationIsOneWay | trailing_stop.py:47-68 | over any sequence of checks an inactive position answers false until the first profit reaching the threshold and true from then on; an active one answers true throughout |
| TrailingStop.ValidateStopUpdate | trailing_stop.py:177-186 | a set buy stop may only rise, a set sell stop only fall; no positive stop or an unrecognised type is always accepted |
| TrailingStop.StopUpdateResult | trailing_stop.py:137-158 | an update is reported only for a candidate passing the check; a callback that returns false or raises always gives false; with no callback a passing candidate always gives true |
| TrailingStop.NewStop | trailing_stop.py:91-108 | no candidate with trailing disabled; a candidate exactly when activation fires in this call and the risk manager offers one, and then it is the risk manager's |
| TrailingStop.StopUpdateReported | trailing_stop.py:133-158 | an update is reported exactly when a candidate exists, passes the check, and the callback (if any) returned true without raising; a reported update of a set stop is strictly tighter |
| TrailingStop.RoundedBuyCandidateRefused | trailing_stop.py:141-142 | a buy candidate rounded onto the current stop is produced and then refused |
| TrailingStop.RatchetNeverLowersBuyStop | trailing_stop.py:177-182 | feeding candidates through the check, a set buy stop never falls |
| TrailingStop.RatchetNeverRaisesSellStop | trailing_stop.py:183-186 | feeding positive candidates through the check, a set sell stop never rises |
| TrailingStop.TrailingStopManager.constructor | trailing_stop.py:19-26 | a new manager keeps the configuration and the profit collaborator and has no position flagged |
| TrailingStop.TrailingStopManager.ShouldActivateTrailing | trailing_stop.py:28-68 | the answer and the new flags are those of one activation check at the collaborator's profit |
| TrailingStop.TrailingStopManager.CalculateNewStop | trailing_stop.py:70-108 | the risk manager's candidate when trailing is or becomes active in this call, none otherwise, with the activation kept |
| TrailingStop.TrailingStopManager.UpdatePositionStop | trailing_stop.py:110-158 | the result is the reported-update rule applied to that candidate; an activation made on the way is kept whatever the outcome |
| TrailingStop.TrailingStopManager.ResetTrailing | trailing_stop.py:188-192 | only that id's flag is dropped; absent ids change nothing |
| TrailingStop.TrailingStopManager.GetTrailingStatus | trailing_stop.py:194-196 | true exactly when the id is flagged |
| TrailingStop.TrailingStopManager.GetAllTrailingPositions | trailing_stop.py:198-200 | the flag map, as a value independent of later changes |
| TrailingStop.BreakevenStep | trailing_stop.py:234-251 | one breakeven check fires only for an unmoved id, sets its flag, and touches no other id |
| TrailingStop.BreakevenFiresOnce | trailing_stop.py:234-251 | over any sequence of checks an unmoved position answers true exactly at the first profit reaching the trigger; a moved one never |
| TrailingStop.AtMostOneBreakeven | trailing_stop.py:234-251 | no two checks of a sequence both answer true |
| TrailingStop.BreakevenManager.constructor | trailing_stop.py:206-212 | a new manager keeps the trigger percentage and the profit collaborator and has no position moved |
| TrailingStop.BreakevenManager.ShouldMoveToBreakeven | trailing_stop.py:214-251 | the answer and the new flags are those of one breakeven check at the collaborator's profit |
| TrailingStop.BreakevenManager.GetBreakevenPrice | trailing_stop.py:253-270 | the price exceeds entry by commission% of entry, and is at least the entry for non-negative inputs |
| TrailingStop.BreakevenManager.ResetBreakeven | trailing_stop.py:272-275 | only that id's flag is dropped; absent ids change nothing |
| TrailingStop.ShortBreakevenLoses | trailing_stop.py:268-270 | a short stopped at its breakeven price loses money |
| Clock.BeforeIsStrictTotalOrder | btc_smartbot.py:170 | datetime comparison is irreflexive, total and transitive |
| Clock.NotBeforeTransitive | btc_smartbot.py:170 | not-after is transitive |
| SmartBot.TimeframeMinutes | btc_smartbot.py:160-161 | a known timeframe gives its table entry, an unknown one 60 |
| SmartBot.BarTime | btc_smartbot.py:164-168 | the minute is floored to a multiple of the timeframe, seconds and microseconds cleared, other fields kept; the bar never lies after the time |
| SmartBot.LongTimeframesFloorToTheHour | btc_smartbot.py:160-168 | with a timeframe of an hour or more the bar minute is 0 |
| SmartBot.FourHourTimeframeSeesHourlyBars | btc_smartbot.py:160-172 | with "4h", 10:00 and then 11:00 of one day are both new bars |
| SmartBot.NewBarStep | btc_smartbot.py:170-174 | a bar is new exactly when none was seen or its floored time lies after the last one, and then it is stored; a bar not after the last changes nothing; the last bar time never moves back |
| SmartBot.LastBarTimeNeverDecreases | btc_smartbot.py:170-174 | over any sequence of calls the last bar time is set and non-decreasing |
| SmartBot.BTCSmartBot.IsNewBar | btc_smartbot.py:149-174 | the answer and the new last bar time are those of one bar step at the configured timeframe |
| SmartBot.EntrySignal | btc_smartbot.py:244-267 | a signal exactly when there are two bars, enough volatility and a cross; a bullish cross gives exactly "buy", a bearish cross without a bullish one exactly "sell"; every signal is a recognised side |
| SmartBot.EntryPrice | btc_smartbot.py:452 | the ask for a buy, the bid otherwise |
| SmartBot.OpenedPositionsHavePnl | btc_smartbot.py:339-347 | a position opened on an entry signal always has a P&L |
| SmartBot.ProgressStep | btc_smartbot.py:367-385 | managing one pending position records it and settles its flag, leaving the others as they were |
| SmartBot.BTCSmartBot.constructor | btc_smartbot.py:34-57 | a new bot has an empty tracker, a trailing manager on the same configuration with no flags, no last bar time and a balance of 0 |
| SmartBot.BTCSmartBot.ExecuteTrade | btc_smartbot.py:278-347 | skipped at capacity, refused on a failed validation, abandoned when live placement raises, and otherwise exactly one position registered under the paper or order id with the computed size, stop and target |
| SmartBot.BTCSmartBot.ManagePosition | btc_smartbot.py:368-385 | one position has its P&L recorded at the price; if it is trailed its flag is settled by the activation rule and no other flag changes, otherwise no flag changes |
| SmartBot.BTCSmartBot.ManageOpenPositions | btc_smartbot.py:359-385 | every record gets its P&L recorded at the mid price, no stop changes, each trailed position is flagged exactly when it was or its profit reaches the threshold, no other flag changes |

## Left out

- Exchange plumbing (`_initialize_exchange`, `fetch_ohlcv`, `get_current_price`, `update_balance`, `_place_market_order`): network I/O through a foreign library. Their answers are parameters, except that of `update_balance`, which is the field `balance`.
- The polling loop `run`, `stop` and `main`: process control, sleeping and wall-clock time. Only the entry-price choice of `run` is modelled.
- `check_trading_filters` and `check_higher_timeframe_confirmation`: they depend on the wall clock and on indicators.py, which is not part of this model.
- The formulas of indicators.py (EMA, ATR, crossover, dynamic stops, profit percentage): not part of this model. They are parameters, or the function value `profitOf`.
- The `ValueError` that `calculate_dynamic_stops` may raise: it lies inside indicators.py.
- The `ZeroDivisionError` that `calculate_position_profit` raises at an entry price of 0: it lies inside indicators.py. `should_activate_trailing`, `calculate_new_stop`, `update_position_stop` and `should_move_to_breakeven` pass it on to their callers, while the model's `ShouldActivateTrailing`, `CalculateNewStop`, `UpdatePositionStop` and `ShouldMoveToBreakeven` return the answer built from whatever value `profitOf` gives.
- IEEE floating-point behaviour: arithmetic is exact on reals and `round` is exact round-half-even. Float representation error is not modelled.
- `str.lower()` beyond ASCII: Unicode case mapping is not modelled.
- SmartBot.BTCSmartBot.ManageOpenPositions: does not model the division by `entry_price * size` used only for the log line. That division raises `ZeroDivisionError` on a zero-valued position. The exception leaves `manage_open_positions` and is caught by the `except Exception` of `run`, which lies outside its `while` loop, so it stops the bot.
- PositionTracking.PositionTracker.GetPosition: the source returns the stored dictionary itself, so a caller's writes through it change the tracker. The model returns the record as a value, so such writes are not modelled. `CalculatePositionPnl` instead writes the updated record back into `positions` explicitly.
- PositionTracking.PositionTracker.GetAllPositions: the source returns its own dictionary, so callers alias the tracker's state. The model returns a value, so that aliasing is not modelled.
- A `TrailingStopManager` built with a separate `RiskManager` or configuration: the model uses the bot's configuration for both.
- Logging, and the pandas DataFrame handling of `analyze_entry_signal`.
- Time zones: all timestamps are taken to be in one zone (UTC), as `run` supplies them.
- Default argument values are not applied implicitly. The configuration and manager defaults are the named constants `Settings.Default`, `TrailingStop.DefaultBreakevenTriggerPct` and `TrailingStop.DefaultCommissionPct`. The `leverage = 1.0` default of `calculate_position_size` and `validate_trade` is passed explicitly by `TradeSize` and `ExecuteTrade`. The `exchange_update_callback = None` default of `update_position_stop` is passed explicitly as `NoCallback` by `ManagePosition`.
