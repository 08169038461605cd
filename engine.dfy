/**
 * The trading decision core of TradingBot as functions on a value of its
 * whole state: trade-state reset, the yield check, the martingale staking
 * step run on every closed candle, tick processing with window roll-over,
 * and the start guard. The class in module BotRuntime carries out the same
 * transitions with mutable fields.
 */
module Engine {
  import opened Wrappers
  import opened Clock
  import opened Candles
  import opened YieldSelection

  /** The configuration the bot reads at construction. */
  datatype Config = Config(
    periodSeconds: int,             // PERIOD
    periodMinutes: int,             // TRADING_PERIOD_MINUTES
    tiers: seq<int>,                // BET_SIZES, the martingale ladder
    offsetCandles: int,             // OFFSET_CANDLES
    currencies: map<string, string> // CURRENCIES, displayed name to code
  )

  /** A usable configuration: a non-empty ladder and a positive offset. */
  predicate ConfigValid(c: Config)
  {
    |c.tiers| > 0 && c.offsetCandles >= 1
  }

  function Length(c: Config): int
  {
    WindowLength(c.periodSeconds, c.periodMinutes)
  }

  function FirstWindow(c: Config, now: int): Window
  {
    InitialWindow(c.periodSeconds, c.periodMinutes, now)
  }

  /** The open bet: its colour, its stake and when it is expected to settle. */
  datatype Bet = Bet(color: Color, amount: int, expectedClose: int)

  datatype TradeResult = Win | Loss

  datatype TradeRecord = TradeRecord(time: int, traded: Color, amount: int, outcome: Color, result: TradeResult)

  /** What the bot asks the trading page to do. */
  datatype Intent = SetAmount(amount: int) | TakePosition(color: Color) | SelectInstrument(name: string)

  /** One entry of the browser's log: a price tick when the entry carries one,
   *  the clock when it is processed and what the page shows then. */
  datatype LogEntry = LogEntry(tick: Option<Tick>, now: int, ui: UiView)

  /** The state of a TradingBot. */
  datatype Bot = Bot(
    activeCurrency: Option<string>,
    isCurrencyChanging: bool,
    lastCurrencyChange: int,
    window: Window,
    prices: seq<PricePoint>,
    candles: seq<Candle>,
    betIndex: nat,
    activeBet: Option<Bet>,
    trades: seq<TradeRecord>,
    isTradeActive: bool,
    isRunning: bool,
    intents: seq<Intent>
  )

  /** The open bet is always the stake of the current rung of the ladder. */
  predicate LadderInvariant(c: Config, b: Bot)
  {
    b.betIndex < |c.tiers| &&
    (b.activeBet.Some? ==> b.activeBet.value.amount == c.tiers[b.betIndex])
  }

  /** The current window is one period long. */
  predicate WindowInvariant(c: Config, b: Bot)
  {
    b.window.end - b.window.start == Length(c)
  }

  /** A bet is open only while a sequence is active. */
  predicate SequenceInvariant(b: Bot)
  {
    b.activeBet.Some? ==> b.isTradeActive
  }

  predicate Invariant(c: Config, b: Bot)
  {
    LadderInvariant(c, b) && WindowInvariant(c, b) && SequenceInvariant(b)
  }

  /** The state right after construction. */
  function Initial(c: Config, now: int): (b: Bot)
    requires ConfigValid(c)
    ensures Invariant(c, b) && b.activeCurrency.None? && !b.isTradeActive && !b.isRunning
  {
    Bot(None, false, now, FirstWindow(c, now), [], [], 0, None, [], false, false, [])
  }

  /** Back to the base stake: no open bet, index 0, the amount field set to
   *  the first rung, and a fresh window from the clock. */
  function ResetTradeState(c: Config, b: Bot, now: int): (r: Bot)
    requires ConfigValid(c)
    ensures r.betIndex == 0 && r.activeBet.None?
    ensures r.intents == b.intents + [SetAmount(c.tiers[0])]
    ensures r.window == FirstWindow(c, now)
    ensures r == b.(betIndex := 0, activeBet := None, window := r.window, intents := r.intents)
    ensures LadderInvariant(c, r) && WindowInvariant(c, r)
  {
    b.(betIndex := 0, activeBet := None,
       intents := b.intents + [SetAmount(c.tiers[0])],
       window := FirstWindow(c, now))
  }

  /** A yield check and the state after it. */
  datatype Checked = Checked(ok: bool, bot: Bot)

  /** The state change a yield decision makes. */
  function ApplyYield(c: Config, b: Bot, y: YieldResult, now: int): Bot
    requires ConfigValid(c)
  {
    var b1 := if y.reset then ResetTradeState(c, b, now) else b;
    var b2 := b1.(activeCurrency := y.active,
                  intents := if y.selected.Some? then b1.intents + [SelectInstrument(y.selected.value)] else b1.intents);
    if y.switched then b2.(isCurrencyChanging := true, lastCurrencyChange := now) else b2
  }

  /** _get_current_yield_and_select_best. */
  function SelectYield(c: Config, b: Bot, ui: UiView, now: int): (r: Checked)
    requires ConfigValid(c)
    ensures r.bot.candles == b.candles && r.bot.trades == b.trades && r.bot.prices == b.prices
    ensures r.bot.isTradeActive == b.isTradeActive && r.bot.isRunning == b.isRunning
    ensures r.ok ==> r.bot.activeCurrency.Some? && r.bot.activeCurrency.value in c.currencies.Values
    ensures LadderInvariant(c, b) ==> LadderInvariant(c, r.bot)
    ensures WindowInvariant(c, b) ==> WindowInvariant(c, r.bot)
    ensures SequenceInvariant(b) ==> SequenceInvariant(r.bot)
  {
    var y := EnsureTargetYield(ui, c.currencies, b.activeCurrency);
    Checked(y.ok, ApplyYield(c, b, y, now))
  }

  /** The colours of the last n candles, oldest first. */
  function LastColors(candles: seq<Candle>, n: nat): (r: seq<Color>)
    requires n <= |candles|
    ensures |r| == n
    ensures forall i :: 0 <= i < n ==> r[i] == candles[|candles| - n + i].color
  {
    seq(n, i requires 0 <= i < n => candles[|candles| - n + i].color)
  }

  /** All colours equal (Python: len(set(colors)) == 1). */
  predicate AllSame(colors: seq<Color>)
  {
    |colors| > 0 && forall i :: 0 <= i < |colors| ==> colors[i] == colors[0]
  }

  /** AllSame is Python's test: the set of the colours has exactly one element. */
  lemma AllSameIsOneDistinctColour(colors: seq<Color>)
    ensures AllSame(colors) <==> |set x | x in colors| == 1
  {
    var distinct := set x | x in colors;
    if AllSame(colors) {
      assert distinct == {colors[0]};
    }
    if |distinct| == 1 {
      var x :| x in distinct;
      assert |distinct - {x}| == |distinct| - 1 == 0;
      forall i | 0 <= i < |colors| ensures colors[i] == colors[0] {
        assert colors[i] in distinct && colors[0] in distinct;
        assert colors[i] !in distinct - {x} && colors[0] !in distinct - {x};
      }
    }
  }

  /** A new bet at the base stake: the amount field is set, the position is
   *  taken and the next rung is staged in the amount field. */
  function OpenBaseBet(c: Config, b: Bot, target: Color): (r: Bot)
    requires ConfigValid(c)
    ensures r.betIndex == 0 && r.activeBet == Some(Bet(target, c.tiers[0], b.window.end + c.periodMinutes * 60))
    ensures r.intents == b.intents + [SetAmount(c.tiers[0]), TakePosition(target)] +
                         (if 1 < |c.tiers| then [SetAmount(c.tiers[1])] else [])
    ensures r == b.(betIndex := r.betIndex, activeBet := r.activeBet, intents := r.intents)
    ensures LadderInvariant(c, r)
  {
    var amount := c.tiers[0];
    b.(betIndex := 0,
       activeBet := Some(Bet(target, amount, b.window.end + c.periodMinutes * 60)),
       intents := b.intents + [SetAmount(amount), TakePosition(target)] +
                  (if 1 < |c.tiers| then [SetAmount(c.tiers[1])] else []))
  }

  /** After a loss: the next rung with a bet in the target colour, staging
   *  the rung after it (or the first rung after the top); past the top the
   *  sequence ends at the base stake. */
  function LoseBet(c: Config, b: Bot, target: Color, now: int): (r: Bot)
    requires ConfigValid(c)
    ensures r == b.(betIndex := r.betIndex, activeBet := r.activeBet, intents := r.intents,
                    isTradeActive := r.isTradeActive, window := r.window)
    ensures r.window == b.window || r.window == FirstWindow(c, now)
    ensures LadderInvariant(c, r)
    ensures WindowInvariant(c, b) ==> WindowInvariant(c, r)
    ensures b.isTradeActive ==> SequenceInvariant(r)
  {
    var index := b.betIndex + 1;
    if index < |c.tiers| then
      b.(betIndex := index,
         activeBet := Some(Bet(target, c.tiers[index], b.window.end + c.periodMinutes * 60)),
         intents := b.intents + [TakePosition(target)] +
                    (if index + 1 < |c.tiers| then [SetAmount(c.tiers[index + 1])] else [SetAmount(c.tiers[0])]))
    else
      var halted := ResetTradeState(c, b.(betIndex := index, isTradeActive := false), now);
      halted.(intents := halted.intents + [SetAmount(c.tiers[0])])
  }

  /** Settles the open bet against the colour of the candle that just closed
   *  and goes on with the ladder. */
  function SettleBet(c: Config, b: Bot, color: Color, target: Color, now: int): (r: Bot)
    requires ConfigValid(c) && b.activeBet.Some?
    ensures r.trades == b.trades + [TradeRecord(now, b.activeBet.value.color, b.activeBet.value.amount, color,
                                                if color == b.activeBet.value.color then Win else Loss)]
    ensures r == b.(betIndex := r.betIndex, activeBet := r.activeBet, intents := r.intents, trades := r.trades,
                    isTradeActive := r.isTradeActive, window := r.window)
    ensures r.window == b.window || r.window == FirstWindow(c, now)
    ensures LadderInvariant(c, r)
    ensures WindowInvariant(c, b) ==> WindowInvariant(c, r)
    ensures b.isTradeActive ==> SequenceInvariant(r)
  {
    var bet := b.activeBet.value;
    var win := color == bet.color;
    var b1 := b.(trades := b.trades + [TradeRecord(now, bet.color, bet.amount, color, if win then Win else Loss)]);
    if win then OpenBaseBet(c, b1, target) else LoseBet(c, b1, target, now)
  }

  /** The martingale step once the yield check has passed. */
  function StakeStep(c: Config, b: Bot, color: Color, target: Color, now: int): (r: Bot)
    requires ConfigValid(c)
    ensures r == b.(betIndex := r.betIndex, activeBet := r.activeBet, intents := r.intents, trades := r.trades,
                    isTradeActive := r.isTradeActive, window := r.window)
    ensures r.window == b.window || r.window == FirstWindow(c, now)
    ensures r.trades == b.trades || (|r.trades| == |b.trades| + 1 && r.trades[..|b.trades|] == b.trades)
    ensures LadderInvariant(c, r)
    ensures WindowInvariant(c, b) ==> WindowInvariant(c, r)
    ensures b.isTradeActive ==> SequenceInvariant(r)
  {
    if b.activeBet.None? then OpenBaseBet(c, b, target) else SettleBet(c, b, color, target, now)
  }

  /** The sequence once armed: yield check, switch cooldown, then the stake step. */
  function ActiveSequenceStep(c: Config, b: Bot, color: Color, target: Color, ui: UiView, now: int): (r: Bot)
    requires ConfigValid(c)
    ensures r.candles == b.candles && r.prices == b.prices && r.isRunning == b.isRunning
    ensures r.window == b.window || r.window == FirstWindow(c, now)
    ensures r.trades == b.trades || (|r.trades| == |b.trades| + 1 && r.trades[..|b.trades|] == b.trades)
    ensures LadderInvariant(c, b) ==> LadderInvariant(c, r)
    ensures WindowInvariant(c, b) ==> WindowInvariant(c, r)
    ensures b.isTradeActive && SequenceInvariant(b) ==> SequenceInvariant(r)
  {
    var checked := SelectYield(c, b, ui, now);
    if !checked.ok then ResetTradeState(c, checked.bot.(isTradeActive := false), now)
    else
      var b2 := checked.bot;
      if b2.isCurrencyChanging && now - b2.lastCurrencyChange < CooldownSeconds(c.periodSeconds, c.periodMinutes) then b2
      else StakeStep(c, b2.(isCurrencyChanging := false), color, target, now)
  }

  /** _apply_trade_logic, run with the colour of the candle just appended. */
  function ApplyTradeLogic(c: Config, b: Bot, color: Color, ui: UiView, now: int): (r: Bot)
    requires ConfigValid(c)
    ensures Invariant(c, b) ==> Invariant(c, r)
    ensures r.candles == b.candles && r.prices == b.prices && r.isRunning == b.isRunning
    ensures r.window == b.window || r.window == FirstWindow(c, now)
    ensures r.trades == b.trades || (|r.trades| == |b.trades| + 1 && r.trades[..|b.trades|] == b.trades)
  {
    if |b.candles| < c.offsetCandles then b
    else
      var last := LastColors(b.candles, c.offsetCandles);
      var b1 := if !b.isTradeActive && AllSame(last) then b.(isTradeActive := true, betIndex := 0) else b;
      if b1.isTradeActive then ActiveSequenceStep(c, b1, color, last[0], ui, now)
      else if b1.activeBet.Some? then ResetTradeState(c, b1, now)
      else b1
  }

  /** Buffered ticks are kept for ten minutes after a window closes. */
  const RetentionSeconds: int := 600

  /** The candle of the closing window, if it has ticks, appended and traded on. */
  function TradeOnClose(c: Config, b: Bot, now: int, ui: UiView): (r: Bot)
    requires ConfigValid(c)
    ensures Invariant(c, b) ==> Invariant(c, r)
    ensures r.prices == b.prices
    ensures r.trades == b.trades || (|r.trades| == |b.trades| + 1 && r.trades[..|b.trades|] == b.trades)
    ensures r.candles == b.candles || (|r.candles| == |b.candles| + 1 && r.candles[..|b.candles|] == b.candles)
  {
    match CloseCandle(b.prices, b.window)
    case None => b
    case Some(candle) =>
      var b1 := b.(candles := b.candles + [candle]);
      assert b1.candles[..|b.candles|] == b.candles;
      ApplyTradeLogic(c, b1, candle.color, ui, now)
  }

  /** The state with the current window closed: the candle of its ticks (if
   *  any) is appended and traded on, the window rolls over from the end the
   *  state has then, and ticks older than ten minutes are dropped. */
  function CloseWindow(c: Config, b: Bot, now: int, ui: UiView): (r: Bot)
    requires ConfigValid(c)
    ensures Invariant(c, b) ==> Invariant(c, r)
    ensures r.window.end - r.window.start == Length(c)
    ensures r.trades == b.trades || (|r.trades| == |b.trades| + 1 && r.trades[..|b.trades|] == b.trades)
    ensures r.candles == b.candles || (|r.candles| == |b.candles| + 1 && r.candles[..|b.candles|] == b.candles)
    ensures forall p :: p in r.prices ==> p.time > now - RetentionSeconds
  {
    var b2 := TradeOnClose(c, b, now, ui);
    b2.(window := NextWindow(b2.window, c.periodSeconds, c.periodMinutes),
        prices := Filter(b2.prices, (p: PricePoint) => p.time > now - RetentionSeconds))
  }

  /** One entry of the log: a tick of the active instrument is buffered and
   *  closes the window when its time has reached the window's end. */
  function OnEntry(c: Config, b: Bot, e: LogEntry): (r: Bot)
    requires ConfigValid(c)
    ensures Invariant(c, b) ==> Invariant(c, r)
    ensures r.trades == b.trades || (|r.trades| == |b.trades| + 1 && r.trades[..|b.trades|] == b.trades)
    ensures r.candles == b.candles || (|r.candles| == |b.candles| + 1 && r.candles[..|b.candles|] == b.candles)
  {
    match e.tick
    case None => b
    case Some(tick) =>
      if Some(tick.code) != b.activeCurrency then b
      else
        var t := NormalizeTimestamp(tick.time);
        var b1 := b.(prices := b.prices + [PricePoint(t, tick.price)]);
        assert Invariant(c, b) ==> Invariant(c, b1);
        if t >= b1.window.end then CloseWindow(c, b1, e.now, e.ui) else b1
  }

  /** The entries of one batch of log, processed in order. */
  function ProcessEntries(c: Config, b: Bot, entries: seq<LogEntry>): Bot
    requires ConfigValid(c)
    decreases |entries|
  {
    if entries == [] then b
    else OnEntry(c, ProcessEntries(c, b, entries[..|entries| - 1]), entries[|entries| - 1])
  }

  /** No instrument is active (Python's falsy None or empty string). */
  predicate NoActiveCurrency(b: Bot)
  {
    b.activeCurrency.None? || b.activeCurrency.value == ""
  }

  /** _process_websocket_data: without an active instrument one is selected
   *  first, which clears the buffers; then the batch is processed. */
  function ProcessWebsocketData(c: Config, b: Bot, ui: UiView, now: int, entries: seq<LogEntry>): Bot
    requires ConfigValid(c)
  {
    if NoActiveCurrency(b) then
      var checked := SelectYield(c, b, ui, now);
      if !checked.ok then checked.bot
      else ProcessEntries(c, checked.bot.(window := FirstWindow(c, now), prices := [], candles := []), entries)
    else ProcessEntries(c, b, entries)
  }

  datatype StartOutcome = AlreadyRunning | StartFailed | Started

  /** The start guard and the start-up sequence before the trading loop. The
   *  driver, cookie and trade-timeout steps are taken to succeed; Started is
   *  the state just before the loop begins. */
  function Start(c: Config, b: Bot, ui: UiView, now: int): (StartOutcome, Bot)
    requires ConfigValid(c)
  {
    if b.isRunning then (AlreadyRunning, b)
    else
      var b1 := ResetTradeState(c, b.(isRunning := true), now);
      var checked := SelectYield(c, b1, ui, now);
      if !checked.ok then (StartFailed, checked.bot.(isRunning := false))
      else (Started, checked.bot)
  }
}
