# Paper-trading engine core, modelled in Dafny

This project models the deterministic core of a TradingView-driven
paper-trading bot. The bot receives live Coinbase ticker messages over a
WebSocket. It closes simulated ("paper") trades when their triggers are hit,
and it prices those trades with a liquidation-price formula and an execution
fee. The model covers four pieces:

- **Trade math** (`TradeHelpers`). The direction-aware liquidation price,
  maintenance margin included, and the two-leg execution fee, both over
  exact reals.
- **Constants** (`TradeConstants`). The execution-fee, funding-fee and
  maintenance-margin percentages, and the daily funding hours `[0, 8, 16]`
  UTC. It also has the "next funding instant" rule that the constants'
  documentation describes: a trade opened at 07:59 starts accruing at 08:00.
- **Trade vocabulary** (`TradeModels`). The enums `TradeSignal`,
  `TradeKind`, `TradeDirection`, `TradeStatus` and `TradeLeverage`, with
  their serialized string tags as encoder/decoder pairs. It also has the
  `ActiveTrade`/`ClosedTrade` records, the `Buy → Long`, `Sell → Short`
  bridge, and the close-or-keep rule for an alert that meets an open trade.
- **Tick consumer** (`CoinbaseFeed`, `PriceListener`, `AsciiCase`). The
  Coinbase read loop, written as a filter over a sequence of frames. Parsed
  `"ticker"` messages are forwarded. Everything else is skipped. The loop
  stops at a transport error or when the receiver is gone. For each update,
  the consumer reads the price (0.0 when it is missing or unreadable) and
  upper-cases the product id. It then selects the snapshot's trades whose
  pair equals the product id ignoring ASCII case, and requests a close, at that price, of each trade whose
  trigger is hit.

Outside collaborators become parameters:

- the JSON decoder, as `Parser`;
- the float parser, as `PriceParser`;
- the trigger test, as `Trigger`;
- how many sends succeed before the channel's receiver is dropped (the
  updates it received plus those still buffered in the channel at that
  moment), as `accepts`;
- the order in which the in-memory map yields its values, as a
  duplicate-free listing of its keys.

The close action is not run. It is emitted as a list of `CloseCall`
requests.

## Model

| member | source | states |
|---|---|---|
| TradeConstants.MaintenanceRatioInUnitInterval | src/constants/trade.rs:17-19 | the maintenance margin as a ratio lies strictly between 0 and 1 |
| TradeConstants.FeePercentagesPositive | src/constants/trade.rs:2-10 | the execution and 8-hour funding fee percentages are strictly positive |
| TradeConstants.FundingHoursWellFormed | src/constants/trade.rs:15 | there are three funding hours, strictly increasing, each an hour of the day (below 24) that fits a `u8` |
| TradeConstants.FundingHoursEightHoursApart | src/constants/trade.rs:5-15 | consecutive funding hours are 8 hours apart, including the wrap from 16:00 to midnight |
| TradeConstants.NextFundingSecond | src/constants/trade.rs:12-15 | the next funding instant after a time of day lies strictly after it, is a listed hour or the next midnight, and no funding instant lies in between |
| TradeConstants.NextFundingSecondOnGrid | src/constants/trade.rs:12-15 | the next funding instant is the next multiple of 8 hours after the time of day |
| TradeConstants.OpenedAt0759AccruesFrom0800 | src/constants/trade.rs:14 | a trade opened at 07:59 UTC starts accruing funding at 08:00 UTC |
| TradeConstants.NextFundingInstant | src/constants/trade.rs:12-15 | for any Unix timestamp, the next funding instant is strictly later, at most 8 hours later, on the 8-hour UTC grid, and at a listed funding hour |
| TradeModels.DirectionOf | src/models/trade.rs:105-110 | Buy maps to Long and Sell maps to Short, and no other way |
| TradeModels.DirectionOfBijective | src/models/trade.rs:98-110 | signal-to-direction is injective and, with its inverse, a bijection between the two enums |
| TradeModels.ShouldCloseExisting | src/models/trade.rs:99-104 | Long with Buy and Short with Sell keep the existing trade; Long with Sell and Short with Buy close it |
| TradeModels.RepeatedSignalKeepsTrade | src/models/trade.rs:101-104 | repeating the signal that opened a trade keeps it; any other signal closes it |
| TradeModels.ParseSignal | src/models/trade.rs:113-119 | a signal tag that decodes is the encoding of the signal it decodes to |
| TradeModels.ParseKind | src/models/trade.rs:121-127 | a kind tag that decodes is the encoding of the kind it decodes to |
| TradeModels.ParseDirection | src/models/trade.rs:129-135 | a direction tag that decodes is the encoding of the direction it decodes to |
| TradeModels.ParseStatus | src/models/trade.rs:137-143 | a status tag that decodes is the encoding of the status it decodes to |
| TradeModels.ParseLeverage | src/models/trade.rs:145-158 | a leverage tag that decodes is the encoding of the leverage it decodes to |
| TradeModels.SignalTagRoundTrip | src/models/trade.rs:113-119 | "buy"/"sell" decode back to their signal, and a tag decodes to a signal exactly when it is that signal's tag |
| TradeModels.KindTagRoundTrip | src/models/trade.rs:121-127 | "paper"/"live" decode back to their kind, and a tag decodes to a kind exactly when it is that kind's tag |
| TradeModels.DirectionTagRoundTrip | src/models/trade.rs:129-135 | "long"/"short" decode back to their direction, and a tag decodes to a direction exactly when it is that direction's tag |
| TradeModels.StatusTagRoundTrip | src/models/trade.rs:137-143 | "active"/"closed" decode back to their status, and a tag decodes to a status exactly when it is that status's tag |
| TradeModels.LeverageTagRoundTrip | src/models/trade.rs:145-158 | "1x","2x","3x","5x","10x" decode back to their leverage, and a tag decodes to a leverage exactly when it is that leverage's tag |
| TradeModels.LeverageTagsDistinct | src/models/trade.rs:146-158 | the five leverage tags are pairwise distinct |
| TradeModels.LeverageParseRejectsOtherSpellings | src/models/trade.rs:113-158 | tags are matched exactly: "1X", "1", "4x" are not leverages and "BUY" is not a signal |
| TradeModels.Multiplier | src/models/trade.rs:29-32 | every leverage level is at least 1x, and exactly the spot level `One` is 1x |
| TradeHelpers.LiquidationPrice | src/api/trade_helpers.rs:10-22 | for a positive entry, a Long's liquidation price is strictly below entry and a Short's strictly above; at leverage at least 1x a Long's is non-negative |
| TradeHelpers.LiquidationAtDistance | src/api/trade_helpers.rs:15-21 | Long liquidation is entry minus entry·(1 − MM/100)/leverage; Short is entry plus the same distance |
| TradeHelpers.LiquidationSymmetric | src/api/trade_helpers.rs:15-21 | Long and Short liquidation prices for one entry and leverage sum to twice the entry |
| TradeHelpers.LongLiquidationAtOneX | src/api/trade_helpers.rs:17 | at 1x a Long liquidates at entry · MM/100 |
| TradeHelpers.LongLiquidationAtThreeX | src/api/trade_helpers.rs:17 | a Long entered at 100 with 3x leverage liquidates at exactly 67 |
| TradeHelpers.HigherLeverageLiquidatesCloser | src/api/trade_helpers.rs:15-21 | raising the leverage moves the liquidation price strictly closer to entry, from below for Long and from above for Short |
| TradeHelpers.LiquidationLinearInEntry | src/api/trade_helpers.rs:15-21 | scaling the entry price scales the liquidation price by the same factor |
| TradeHelpers.EnumLeverageLongLiquidationNonNegative | src/api/trade_helpers.rs:15-17 | at every leverage level of the enum, a Long's liquidation price lies between 0 and the entry |
| TradeHelpers.FinalExecutionFees | src/api/trade_helpers.rs:27-29 | the execution fee is the opening leg's fee plus the closing leg's fee, equals 0.1% of the notional, and is non-negative for non-negative quantity and price |
| TradeHelpers.ExecutionFeesAdditive | src/api/trade_helpers.rs:27-29 | the fee is additive over splitting the quantity and monotone in the quantity at a positive price |
| AsciiCase.Uppercase | src/api/websocket.rs:90 | upper-casing an ASCII string keeps it ASCII, leaves it equal to itself ignoring ASCII case and leaves no lower-case ASCII letter |
| AsciiCase.EqIgnoreAsciiCaseIsLowerEquality | src/api/websocket.rs:98 | two strings match ignoring ASCII case exactly when their ASCII-lower-cased forms are equal |
| AsciiCase.EqIgnoreAsciiCaseEquivalence | src/api/websocket.rs:98 | matching ignoring ASCII case is reflexive, symmetric and transitive |
| AsciiCase.UppercaseKeepsMatches | src/api/websocket.rs:90-98 | a pair matches the upper-cased product exactly when it matches the product |
| CoinbaseFeed.FrameUpdates | src/api/websocket.rs:42-58 | a frame contributes one update exactly when it is text that decodes into a "ticker" message, and that update is the decoded message; other frames contribute nothing |
| CoinbaseFeed.TickerUpdates | src/api/websocket.rs:40-58 | the filtered updates are all of type "ticker" and no more numerous than the frames |
| CoinbaseFeed.FirstError | src/api/websocket.rs:59-62 | the index where the loop meets its first transport error, with no error before it |
| CoinbaseFeed.TickerUpdatesAppend | src/api/websocket.rs:40-48 | the filter distributes over concatenation, so forwarded updates keep the arrival order of their frames |
| CoinbaseFeed.TickerUpdatesMembership | src/api/websocket.rs:42-46 | an update is among the filtered ticker updates of a run of frames exactly when it is a "ticker" message that some text frame of the run decodes into |
| CoinbaseFeed.SkippedFramesAddNothing | src/api/websocket.rs:42-58 | non-text frames, unparseable text and non-ticker messages, wherever they occur, change nothing that is forwarded |
| CoinbaseFeed.NothingAfterTransportError | src/api/websocket.rs:59-62 | frames arriving after a transport error never reach the channel |
| CoinbaseFeed.ReadLoop | src/api/websocket.rs:40-64 | the loop sends exactly the ticker updates before the first transport error, in order, cut off where the receiver is dropped, and reports why it stopped |
| PriceListener.TickPrice | src/api/websocket.rs:91-92 | a missing or unparseable price reads as 0.0; otherwise it is the parsed number |
| PriceListener.SelectMatching | src/api/websocket.rs:95-101 | every selected trade is a value of the map whose pair matches the product ignoring ASCII case, every listed trade that matches is selected, and over a duplicate-free listing there is exactly one selected trade per matching key |
| PriceListener.SelectedExactly | src/api/websocket.rs:95-101 | over a full listing of the map, the selected trades are exactly the map's values whose pair matches the product ignoring ASCII case |
| PriceListener.UppercaseSelectsSame | src/api/websocket.rs:90-101 | upper-casing the product id before selection selects the same trades in the same order |
| PriceListener.TriggeredTrades | src/api/websocket.rs:104-110 | the trades to close are the selected trades whose trigger is hit at the tick price, each as often as it was selected, and no others |
| PriceListener.TriggeredCount | src/api/websocket.rs:95-110 | over a duplicate-free listing, the number of trades closed equals the number of listed keys whose trade matches the product and whose trigger is hit |
| PriceListener.TriggeredEntriesCount | src/api/websocket.rs:90-110 | after upper-casing an ASCII product id, one trade is closed per map entry that matches the product and whose trigger is hit |
| PriceListener.OnTickerUpdate | src/api/websocket.rs:85-110 | every close request carries the tick price, every snapshot trade that matches the product and whose trigger is hit gets a request, and there is exactly one request per such map entry |
| PriceListener.OnlyTriggeredMatchingTradesClose | src/api/websocket.rs:104-109 | every close request names a snapshot trade that matches the product and whose trigger is hit; no other trade is touched |

## Left out

- Floating point. Prices, quantities and fees are exact reals. f64 rounding, NaN and infinities are not modelled. This includes leverage 0, which the program divides by; the model requires a positive leverage instead.
- The WebSocket connection, subscription message and `expect` panics on connect/subscribe failure (src/api/websocket.rs:15-37) are network plumbing.
- The task spawning and the 100-slot channel (src/api/websocket.rs:72-84) are concurrency plumbing. The channel is modelled by the sequence of successful sends. Sends into the buffer succeed even if the receiver later drops without taking them; `accepts` counts those sends too.
- Logging (`println!`/`eprintln!`) is not modelled.
- `serde_json::from_str` and `str::parse::<f64>` are library calls. They are parameters returning an optional value. The price parser is only required to read "0.0" as zero.
- `is_trigger_hit` and `close_paper_trade` are not part of this model. The trigger is an uninterpreted parameter, and a close is emitted as a request rather than performed.
- `ActiveTradesMap` and `CoinbaseTickerUpdate` are not part of this model. The map is a snapshot `map` with its iteration order as a parameter. The update keeps only the three fields the consumer reads.
- PriceListener.OnTickerUpdate: models one update against one snapshot. How the in-memory map changes between updates depends on `close_paper_trade`, which is not part of this model.
- The mutex around the shared map is locking, and a snapshot replaces it.
- AsciiCase.Uppercase: defined for ASCII strings only, where it agrees with Rust's `to_uppercase`. Unicode case mapping of non-ASCII letters ("ß" to "SS", "µ" to "Μ") is not modelled; Coinbase product ids such as "BTC-USD" are ASCII.
- AsciiCase.UppercaseKeepsMatches: requires an ASCII product id. For non-ASCII ids Rust's upper-casing can change the match (pair "SS" matches the upper-cased "ß" but not "ß").
- PriceListener.UppercaseSelectsSame: requires an ASCII product id, for the same reason.
- PriceListener.OnTickerUpdate: requires an ASCII product id, for the same reason; nothing is promised for ticker updates with non-ASCII product ids.
- PriceListener.OnlyTriggeredMatchingTradesClose: requires an ASCII product id, for the same reason.
- PriceListener.TriggeredEntriesCount: requires an ASCII product id, for the same reason.
- The funding-fee calculation is commented out in the program (src/api/trade_helpers.rs:31-36). Only the next-funding-instant rule from the constants' documentation is modelled.
- Constructing a `ClosedTrade` (PnL, ROE, fees at close) is not implemented in the program, so no closing operation is modelled.
- TradeModels.WellFormedClosed: the rule that spot trades pay no funding fee is stated as an invariant, not proved, because no code computes funding fees.
- Timestamps are whole seconds since the Unix epoch. chrono types and their serde encoding are not modelled.
- The HTTP alert handler, secret check, server, routes, MongoDB setup and tests are I/O and framework wiring.
- `BinanceTickerUpdate`, `TradingViewAlert` and `ApiResponse` are serde-only structs with no logic.
