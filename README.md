# Trading bot core in Dafny

This project models the decision logic of the Dsquare1999/bot trading bot.
The bot drives a binary-options web page. It reads price ticks of the active
instrument from the browser's WebSocket log and builds OHLC candles over
fixed windows. Once `OFFSET_CANDLES` consecutive candles share a colour, it
runs a martingale sequence: it bets in the direction of the pattern and
climbs the `BET_SIZES` ladder after each loss. A loss on the top rung stops
the sequence. Before every stake the bot checks that the displayed payout
is the target `+92%`. When it is not, the bot searches the instrument
catalog for an instrument that pays the target and switches to it, then
waits out a cooldown before trading on it. The project also models the
converters between the WebDriver cookie format and the Cookie-Editor
extension's format.

Modules:

- `Clock` (clock.dfy): candle windows, their roll-over, the millisecond
  timestamp rule and the switch cooldown.
- `Candles` (candles.dfy): ticks, the filter that selects a window's ticks,
  and candle construction and colour.
- `YieldSelection` (yield.dfy): the yield check as a function of what the
  page shows. The catalog scan is also a method with a loop, proved equal
  to that function.
- `Engine` (engine.dfy): the state of a TradingBot as one value, and every
  transition as a function. These are the trade-state reset, the yield
  check, the staking step, tick processing, batch processing and start.
- `StakingProperties` (staking.dfy): the promises of the staking state
  machine and of tick processing, proved about Engine.
- `BotRuntime` (bot.dfy): class `TradingBot` with the source's fields. Its
  methods update the fields in place. Most of them are proved to make
  exactly the Engine transition of the same name. `GetCurrentYieldAndSelectBest`
  makes `Engine.SelectYield`, and `ProcessEntry` makes `Engine.OnEntry`.
  `InitializeTimestamps`, `SetPositionAmount` and `TakePosition` state
  their field updates directly.
- `History` (history.dfy): the history accessors, including the finding
  below.
- `Cookies` (cookies.dfy): the two cookie converters, the dispatcher and
  the round trips.

Modelling conventions:

- Time is whole epoch seconds.
- Prices and stakes are integers.
- Page interactions are recorded as a log of intents: set amount, take
  position, select instrument.
- Page observations are inputs. The displayed payout, the displayed
  instrument and the catalog rows form a `UiView`. A `None` field in it is
  an element that could not be read.
- The current clock reading is a parameter `now`.

## Model

| member | source | states |
|---|---|---|
| Clock.InitialWindow | bot_app/services/trading_logic.py:293-306 | the first window starts on a whole minute, within the minute of `now`, and lasts `PERIOD` seconds when 0 < PERIOD < 60, otherwise `TRADING_PERIOD_MINUTES` minutes |
| Clock.InitialWindowMayLieInThePast | bot_app/services/trading_logic.py:297-303 | with a 5-second period, at 37 s past the minute the first window is [0, 5): it is already over when it is set |
| Clock.WindowLength | bot_app/services/trading_logic.py:298-306 | no contract of its own: the sub-minute period when 0 < PERIOD < 60, otherwise the period in minutes, the test at lines 298 and 837; stated by Clock.InitialWindow, Clock.NextWindow and Clock.CooldownSeconds |
| Clock.NextWindow | bot_app/services/trading_logic.py:836-840 | the next window starts where the closed one ended and is one period long |
| Clock.NormalizeTimestamp | bot_app/services/trading_logic.py:537-538 | raw times above 10^12 are milliseconds and become the whole second containing them; smaller ones are seconds as they are |
| Clock.NormalizeIsExactAtBounds | bot_app/services/trading_logic.py:537-538 | against a whole-second window bound, the whole-second time compares exactly as the fractional one would |
| Clock.CooldownSeconds | bot_app/services/trading_logic.py:628 | the switch cooldown is two windows for PERIOD < 60, and 2·PERIOD seconds when PERIOD ≥ 60, where the window is still counted in minutes |
| Candles.CandleColor | bot_app/services/trading_logic.py:431-436 | green exactly when close > open; a flat candle is red |
| Candles.Filter | bot_app/services/trading_logic.py:805-806 | the kept ticks are exactly the ticks of the input that satisfy the condition, and there are no more of them than of the input; the order is stated by Candles.FilterConcat |
| Candles.FilterSingleton | bot_app/services/trading_logic.py:805-806 | a single tick is kept exactly when it satisfies the condition |
| Candles.FilterConcat | bot_app/services/trading_logic.py:805-806 | filtering a concatenation is the concatenation of the filtered parts, so kept ticks stay in arrival order |
| Candles.InWindow | bot_app/services/trading_logic.py:805-806 | no contract of its own: the [start, end) mask as a filter; its properties are stated by Candles.CloseCandle, Candles.ClosedCandleFromWindow and StakingProperties.InWindowIgnoresLateTick |
| Candles.FilterFirst | bot_app/services/trading_logic.py:805-809 | the first kept tick is the first tick of the input that satisfies the condition |
| Candles.FilterEmpty | bot_app/services/trading_logic.py:805-808 | a filter that keeps nothing accepts no tick of its input |
| Candles.FilterLast | bot_app/services/trading_logic.py:805-812 | the last kept tick is the last tick of the input that satisfies the condition |
| Candles.MaxPrice | bot_app/services/trading_logic.py:810 | the high is a price of the run and no price exceeds it |
| Candles.MinPrice | bot_app/services/trading_logic.py:811 | the low is a price of the run and no price is below it |
| Candles.BuildCandle | bot_app/services/trading_logic.py:808-820 | open is the first price and close the last; high and low are attained, and every price, open and close lie between them; the candle starts at the window start |
| Candles.InRange | bot_app/services/trading_logic.py:805-806 | no contract of its own: a tick lies in [start, end) of the window; stated by Candles.CloseCandle and Candles.ClosedCandleFromWindow |
| Candles.CloseCandle | bot_app/services/trading_logic.py:805-808 | no candle exactly when no buffered tick lies in [start, end) of the window |
| Candles.ClosedCandleFromWindow | bot_app/services/trading_logic.py:805-820 | a closed window's candle opens at its first in-window tick, closes at its last, and bounds every in-window tick |
| YieldSelection.Qualifies | bot_app/services/trading_logic.py:376-378 | no contract of its own: a row pays exactly `+92%` and its name is a key of the instrument map; stated by YieldSelection.Scan, YieldSelection.ScanSelectsFirst and YieldSelection.ScanWithoutSelectable |
| YieldSelection.Scan | bot_app/services/trading_logic.py:371-393 | a selected row is a qualifying row of the catalog whose click succeeded, its name is known, and its code is the active one afterwards |
| YieldSelection.FindBestCurrency | bot_app/services/trading_logic.py:369-393 | the catalog loop yields the active code and selected row the scan function defines |
| YieldSelection.ScanSelectsFirst | bot_app/services/trading_logic.py:371-388 | the first qualifying row whose click succeeds is selected and its code becomes active |
| YieldSelection.ScanWithoutSelectable | bot_app/services/trading_logic.py:371-401 | without a row that qualifies and can be clicked nothing is selected; the active code is the old one or that of a qualifying row; if no row qualifies it is untouched |
| YieldSelection.ScanActiveIsKnown | bot_app/services/trading_logic.py:378-379 | the scan only ever makes known instrument codes active |
| YieldSelection.EnsureTargetYield | bot_app/services/trading_logic.py:339-429 | success implies a known active code; a switch implies success and a reset; a row is selected exactly when the payout is below target and the check succeeds; an unreadable payout fails and changes nothing; a reset happens exactly when the payout is off target, or on target with a switch |
| YieldSelection.BelowTargetSelectsFirstQualifying | bot_app/services/trading_logic.py:353-388 | below target, the first selectable qualifying row is adopted, with a reset and a switch |
| YieldSelection.BelowTargetWithoutMatchFails | bot_app/services/trading_logic.py:353-401 | below target with no selectable qualifying row, the check fails after the reset and starts no switch |
| YieldSelection.AtTargetFollowsDisplayed | bot_app/services/trading_logic.py:406-424 | on target, a different known instrument is adopted with reset and switch; the active one changes nothing; an unknown name clears the active code and fails |
| Engine.Initial | bot_app/services/trading_logic.py:22-60 | the constructed state keeps the invariants, has no instrument, no sequence, and is not running |
| Engine.ResetTradeState | bot_app/services/trading_logic.py:706-717 | index 0, no open bet, the amount field set to the first rung, a fresh window, nothing else changed |
| Engine.SelectYield | bot_app/services/trading_logic.py:339-429 | the yield check leaves candles, ticks, trades and the sequence flag alone, and keeps every invariant; on success the active code is known |
| Engine.ApplyYield | bot_app/services/trading_logic.py:355-417 | no contract of its own: the reset, active code, selection intent and switch time a yield decision causes; stated by Engine.SelectYield and StakingProperties.SwitchSuspendsTrading |
| Engine.AllSame | bot_app/services/trading_logic.py:609 | no contract of its own: the colours are non-empty and equal; Engine.AllSameIsOneDistinctColour ties it to the source's test |
| Engine.AllSameIsOneDistinctColour | bot_app/services/trading_logic.py:609 | the colours are all equal exactly when their set has one element, as `len(set(last_colors)) == 1` tests |
| Engine.LastColors | bot_app/services/trading_logic.py:605 | the colours of the last n candles, oldest first |
| Engine.OpenBaseBet | bot_app/services/trading_logic.py:635-647 | index 0 and an open bet of the first rung in the target colour, due one trading period after the window's end; the intents are the base amount, the position, and the second rung when there is one; nothing else changes |
| Engine.SettleBet | bot_app/services/trading_logic.py:649-697 | exactly one record with the bet's colour and stake, a win exactly when the candle has its colour; the ladder invariant holds afterwards |
| Engine.LoseBet | bot_app/services/trading_logic.py:677-697 | after a loss only the ladder fields, the sequence flag and the window change; the ladder invariant holds; an armed sequence keeps its invariant |
| Engine.StakeStep | bot_app/services/trading_logic.py:635-697 | opens a base bet or settles the open one; keeps the ladder, window and sequence invariants |
| Engine.ActiveSequenceStep | bot_app/services/trading_logic.py:615-697 | yield check, cooldown, stake: leaves candles and ticks alone, adds at most one trade, keeps every invariant |
| Engine.ApplyTradeLogic | bot_app/services/trading_logic.py:593-704 | keeps the invariants, never touches candles or ticks, and appends at most one trade record |
| Engine.TradeOnClose | bot_app/services/trading_logic.py:805-828 | the closed window's candle, when it has ticks, is appended and traded on: invariants kept, ticks untouched, at most one candle and one trade appended |
| Engine.CloseWindow | bot_app/services/trading_logic.py:799-846 | keeps the invariants; the new window is one period long; at most one candle and one trade appended; no buffered tick older than ten minutes remains |
| Engine.OnEntry | bot_app/services/trading_logic.py:775-846 | one log entry keeps the invariants and appends at most one candle and one trade |
| Engine.ProcessEntries | bot_app/services/trading_logic.py:745-853 | no contract of its own: the entries of one batch in order; stated by StakingProperties.ProcessEntriesKeepsInvariant, StakingProperties.ProcessEntriesOnlyAppends and the loop of BotRuntime.TradingBot.ProcessWebsocketData |
| Engine.NoActiveCurrency | bot_app/services/trading_logic.py:727 | no contract of its own: `not self.current_active_currency`, true for None and the empty string; stated by StakingProperties.NoInstrumentNoProcessing and Engine.ProcessWebsocketData's branch |
| Engine.ProcessWebsocketData | bot_app/services/trading_logic.py:719-853 | no contract of its own: selection when no instrument is active, then the batch; stated by StakingProperties.ProcessWebsocketDataKeepsInvariant and StakingProperties.NoInstrumentNoProcessing |
| Engine.Start | bot_app/services/trading_logic.py:855-877 | no contract of its own: the guard, the reset and the yield check, with the browser steps assumed to succeed; stated by StakingProperties.StartGuard and StakingProperties.StartKeepsInvariant |
| StakingProperties.SteadyYieldChangesNothing | bot_app/services/trading_logic.py:406-424 | a passing check on the active instrument changes no state |
| StakingProperties.NoSequenceWithoutPattern | bot_app/services/trading_logic.py:601-613 | without an armed sequence and without a uniform run of offset_candles colours, the candle changes nothing |
| StakingProperties.PatternOpensBaseBet | bot_app/services/trading_logic.py:609-647 | a uniform run arms the sequence and opens a base bet in the run's colour, staging the second rung |
| StakingProperties.OpenBetIsSettledOnce | bot_app/services/trading_logic.py:649-663 | the next candle settles an open bet with exactly one record, a win iff the candle has the bet's colour |
| StakingProperties.WinResetsLadder | bot_app/services/trading_logic.py:665-675 | a win returns to rung 0, bets the base stake again in the pattern's colour, and stages the second rung |
| StakingProperties.LossClimbsLadder | bot_app/services/trading_logic.py:677-691 | a loss below the top climbs exactly one rung, bets that rung's stake, and stages the next rung or, at the top, the first |
| StakingProperties.LossAtTopHalts | bot_app/services/trading_logic.py:693-697 | a loss on the top rung ends the sequence with no open bet and the base stake set twice |
| StakingProperties.YieldFailureHalts | bot_app/services/trading_logic.py:618-623 | a failed yield check ends the sequence without recording a trade |
| StakingProperties.CooldownIsANonTransition | bot_app/services/trading_logic.py:626-631 | during a switch's cooldown a candle changes nothing at all |
| StakingProperties.SwitchSuspendsTrading | bot_app/services/trading_logic.py:618-631 | a switch keeps the sequence armed, drops the open bet and the ladder position, and records the switch time |
| StakingProperties.OtherTicksIgnored | bot_app/services/trading_logic.py:773-775 | an entry without a tick of the active instrument changes nothing |
| StakingProperties.EarlyTickOnlyBuffers | bot_app/services/trading_logic.py:777-799 | a tick before the window's end is only buffered |
| StakingProperties.LateTickClosesWindow | bot_app/services/trading_logic.py:799-846 | a tick at or after the end closes the window: an empty window adds no candle and rolls over; otherwise the candle of the window's ticks is appended and the window rolls over; old ticks are pruned |
| StakingProperties.InWindowIgnoresLateTick | bot_app/services/trading_logic.py:799-807 | the tick that closes a window is not part of it |
| StakingProperties.ProcessEntriesKeepsInvariant | bot_app/services/trading_logic.py:745-853 | a batch of log keeps the invariants |
| StakingProperties.ProcessEntriesOnlyAppends | bot_app/services/trading_logic.py:745-853 | a batch only appends to the candles and the trade log, at most one of each per entry |
| StakingProperties.ProcessWebsocketDataKeepsInvariant | bot_app/services/trading_logic.py:719-853 | one pass of the trading loop keeps the invariants |
| StakingProperties.NoInstrumentNoProcessing | bot_app/services/trading_logic.py:727-732 | without an instrument, a failed selection processes no entry |
| StakingProperties.StartGuard | bot_app/services/trading_logic.py:855-877 | starting a running bot changes nothing; otherwise, with the browser steps assumed to succeed, the bot runs exactly when the yield check succeeds, at rung 0 with no open bet |
| StakingProperties.StartKeepsInvariant | bot_app/services/trading_logic.py:855-877 | start keeps the invariants |
| BotRuntime.TradingBot.constructor | bot_app/services/trading_logic.py:22-60 | the fields hold the initial state |
| BotRuntime.TradingBot.InitializeTimestamps | bot_app/services/trading_logic.py:293-306 | only the window fields change, to the first window at `now` |
| BotRuntime.TradingBot.SetPositionAmount | bot_app/services/trading_logic.py:314-337 | appends one set-amount intent and changes nothing else |
| BotRuntime.TradingBot.TakePosition | bot_app/services/trading_logic.py:565-591 | appends one take-position intent and changes nothing else |
| BotRuntime.TradingBot.ResetTradeState | bot_app/services/trading_logic.py:706-717 | the fields after the call are Engine.ResetTradeState of those before |
| BotRuntime.TradingBot.GetCurrentYieldAndSelectBest | bot_app/services/trading_logic.py:339-429 | result and fields are Engine.SelectYield of the fields before |
| BotRuntime.TradingBot.OpenBaseBet | bot_app/services/trading_logic.py:635-647 | the fields become Engine.OpenBaseBet of the old ones |
| BotRuntime.TradingBot.LoseBet | bot_app/services/trading_logic.py:677-697 | the fields become Engine.LoseBet of the old ones |
| BotRuntime.TradingBot.SettleBet | bot_app/services/trading_logic.py:649-697 | the fields become Engine.SettleBet of the old ones |
| BotRuntime.TradingBot.StakeStep | bot_app/services/trading_logic.py:635-697 | the fields become Engine.StakeStep of the old ones |
| BotRuntime.TradingBot.ActiveSequenceStep | bot_app/services/trading_logic.py:615-697 | the fields become Engine.ActiveSequenceStep of the old ones |
| BotRuntime.TradingBot.ApplyTradeLogic | bot_app/services/trading_logic.py:593-704 | the fields become Engine.ApplyTradeLogic of the old ones |
| BotRuntime.TradingBot.CloseWindow | bot_app/services/trading_logic.py:799-846 | the fields become Engine.CloseWindow of the old ones |
| BotRuntime.TradingBot.ProcessEntry | bot_app/services/trading_logic.py:775-846 | the fields become Engine.OnEntry of the old ones, and the invariants are kept |
| BotRuntime.TradingBot.ProcessWebsocketData | bot_app/services/trading_logic.py:719-853 | the loop over the log leaves the fields at Engine.ProcessWebsocketData of the old ones and keeps the invariants |
| BotRuntime.TradingBot.Start | bot_app/services/trading_logic.py:855-877 | outcome and fields are Engine.Start of the old fields; the invariants are kept |
| BotRuntime.TradingBot.GetOhlcHistory | bot_app/services/trading_logic.py:942-948 | a suffix of the candles, of length min(n, count) for n ≥ 0 |
| BotRuntime.TradingBot.GetTradeHistory | bot_app/services/trading_logic.py:950-956 | a suffix of the trade log, of length min(n, count) for n ≥ 0 (corrected) |
| History.PySliceFrom | bot_app/services/trading_logic.py:956 | Python's s[i:] is a suffix, of length \|s\| − min(i, \|s\|) for i ≥ 0 and min(−i, \|s\|) for i < 0 |
| History.Tail | bot_app/services/trading_logic.py:948 | pandas' tail(n) is a suffix of length min(n, \|s\|), empty for n = 0 |
| History.TradeHistoryAsWritten | bot_app/services/trading_logic.py:950-956 | the trade history as written is a suffix of the log, of length min(n, \|log\|) for n > 0 and \|log\| − min(−n, \|log\|) for n ≤ 0, so the whole log for n = 0 |
| History.TradeHistoryOfZeroIsWholeLog | bot_app/services/trading_logic.py:956 | asking for the last 0 trades returns the whole log, unlike the candle accessor |
| History.TradeHistory | bot_app/services/trading_logic.py:950-956 | the last min(n, \|log\|) records in order; none for n = 0 |
| Cookies.Get | bot_app/utils.py:38 | dict.get is None exactly for an absent key or a stored None |
| Cookies.GetOr | bot_app/utils.py:40 | dict.get with a default uses the default only for an absent key |
| Cookies.Stored | bot_app/utils.py:38 | an assigned key is present and reads back as the assigned value |
| Cookies.ChromeSameSite | bot_app/utils.py:11-16 | the extension's SameSite is that of the table, and "unspecified" for any value the table lacks |
| Cookies.SeleniumSameSite | bot_app/utils.py:18-24 | WebDriver's SameSite is that of the table, and None for any value the table lacks |
| Cookies.SameSiteTablesInverse | bot_app/utils.py:11-24 | the tables undo each other on None, Lax, Strict and "None" |
| Cookies.SameSiteTablesInverseBack | bot_app/utils.py:11-24 | and on unspecified, lax, strict and no_restriction |
| Cookies.StartsWithDot | bot_app/utils.py:49 | no contract of its own: `str(domain).startswith(".")`, false for None since str(None) is "None"; stated through the hostOnly clause of Cookies.ToEditor |
| Cookies.Trunc | bot_app/utils.py:93 | int() of a float truncates toward zero |
| Cookies.TruncOfWhole | bot_app/utils.py:58 | truncation returns a whole number unchanged |
| Cookies.ToEditor | bot_app/utils.py:35-61 | domain and name copied; path, httpOnly, secure and value defaulted to "/", false, false and "" when absent; SameSite through the table; hostOnly iff the domain (str of it) does not start with "."; session iff no expiry, and then no expirationDate, otherwise expirationDate is the expiry; storeId None |
| Cookies.Truthy | bot_app/utils.py:90 | no contract of its own: the truth value of `c.get("session", False)`, true only for a stored True; stated through the expiry clause of Cookies.ToSelenium |
| Cookies.ToSelenium | bot_app/utils.py:76-93 | the same copies and defaults, SameSite through the reverse table, and expiry present iff session is falsy and expirationDate present, then truncated |
| Cookies.MapCookies | bot_app/utils.py:32-34 | one output per input, in order |
| Cookies.SeleniumToEditor | bot_app/utils.py:29-64 | the loop returns ToEditor of every cookie, in order |
| Cookies.EditorToSelenium | bot_app/utils.py:70-96 | the loop returns ToSelenium of every cookie, in order |
| Cookies.ConvertCookies | bot_app/utils.py:102-110 | "selenium" and "editor" dispatch to the two converters; any other source is the ValueError |
| Cookies.SeleniumRoundTrip | bot_app/utils.py:29-96 | a WebDriver cookie reads the same after the round trip iff its SameSite is None, Lax, Strict or "None" |
| Cookies.SeleniumRoundTripExact | bot_app/utils.py:29-96 | with every key stored and expiry not None, the round trip gives back exactly the WebDriver keys |
| Cookies.SeleniumListRoundTrip | bot_app/utils.py:29-96 | the round trip keeps the list's length and every cookie |
| Cookies.EditorRoundTrip | bot_app/utils.py:29-96 | an extension cookie with whole-second expiration, consistent session flag and known SameSite comes back with the same keys; hostOnly is recomputed |
| Cookies.FractionalExpirationIsTruncated | bot_app/utils.py:93 | an expiration of 1.5 becomes expiry 1 |

## Left out

- Browser automation is not modelled: driver set-up, cookie loading,
  navigation, the trade-timeout dialog, the balance, screenshots, `stop`,
  `update_cookies` and `get_status`. Setting the amount, taking a position
  and selecting an instrument are recorded as intents. What the page shows
  is an input.
- The decoding of the WebSocket payload is not modelled (performance log,
  base64, UTF-8, JSON, lines 745-775). A log entry carries the decoded tick
  or none; an entry dropped by those steps is an entry without a tick.
- The `self.driver` check at the start of `_process_websocket_data`, the
  five-second sleep, and the failure of `get_log` are not modelled.
- Exceptions raised while handling one entry are swallowed by the source.
  The model has no such path, so a raise from `utcfromtimestamp` on an
  out-of-range time is not modelled.
- Time zones and `datetime` are not modelled. Time is whole epoch seconds.
  The clock is a parameter: follow-up code reads it on each entry
  (`LogEntry.now`), and the yield check and start read it once.
- Clock.NormalizeTimestamp: millisecond times are floored to whole seconds.
  This is exact against whole-second window bounds. The ten-minute pruning
  compares against `now` in whole seconds, so a tick within one second of
  the cut-off may be dropped that the source keeps.
- Prices are integers, not floats. Float rounding in prices and in
  `float(expiry)` is not modelled.
- `actions_log`, `candles_history`, `max_actions_allowed` and the logging
  are not modelled. The trading logic never reads them.
- Engine.ConfigValid: the configuration must have a non-empty ladder and
  `OFFSET_CANDLES` ≥ 1, the documented range. With an empty ladder the
  source raises IndexError. An offset of 0 never arms a sequence, since
  `tail(0)` is empty and an empty set does not have one element. A negative
  offset -k reads `tail(-k)`, every candle but the first k. The model does
  not cover those configurations.
- Engine.Start: the driver set-up, the cookie loading and the trade-timeout
  dialog (lines 866-867 and 876) are assumed to succeed. In the source a
  missing or invalid cookies file (lines 275 and 278) or a failing timeout
  dialog (lines 515 and 528) raises, the raise is caught at line 886, and
  `stop()` leaves the bot not running; in the model those cases return
  Started. Started is the state reached at line 878, before the trading
  loop; the source's blocking `start()` always ends in `stop()`, which is
  not modelled.
- BotRuntime.TradingBot.GetTradeHistory: the class serves the corrected
  accessor History.TradeHistory, so for n = 0 it returns no records, where
  the source returns the whole log. The code as written is
  History.TradeHistoryAsWritten (see Findings).
- YieldSelection.CatalogItem: the click on a catalog row and the closing of
  the catalog are one flag. When the click succeeds but the close fails,
  the page has switched instrument while the model records no selection
  intent. The state fields are the same either way.
- Cookies: only the twelve keys the converters read or write are modelled.
  Both converters drop every other key. Values are typed (strings,
  booleans, integers, reals), so Python's dynamic typing, for example a
  non-string domain, is not modelled.
- Behaviour of the code that a reader of the strategy might not expect.
  The model follows the code in each case:
  - The traded colour is recomputed on every candle from the last
    `OFFSET_CANDLES` candles, not fixed when the sequence is armed.
  - A sequence arms on the candle that completes the run (the second
    candle when the offset is 2).
  - The cooldown tests `PERIOD > 0`, while the window length tests
    0 < PERIOD < 60.
  - Candle history is never capped, and a switch inside the staking step
    does not clear it.
  - The first window zeroes the seconds before aligning to the period.
  - Nothing deduplicates ticks or candles.

## Findings

| source | as written | input that shows it | evidently intended | confidence | as-written member | corrected member |
|---|---|---|---|---|---|---|
| bot_app/services/trading_logic.py:956 | `get_trade_history` returns `trade_history_log[-last_n:]` | a non-empty log with `last_n = 0`: `[-0:]` is `[0:]`, the whole log | the last `last_n` trades, none for 0, as `get_ohlc_history` does with `tail` | not executed | History.TradeHistoryAsWritten, History.TradeHistoryOfZeroIsWholeLog | History.TradeHistory |
