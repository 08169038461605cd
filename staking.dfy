/**
 * What the staking state machine and the tick processing promise, proved
 * about the transition functions of module Engine.
 */
module StakingProperties {
  import opened Wrappers
  import opened Clock
  import opened Candles
  import opened YieldSelection
  import opened Engine

  /** The yield check passes and changes nothing: the payout is on target and
   *  the page shows the active instrument. */
  predicate YieldSteady(c: Config, b: Bot, ui: UiView)
  {
    EnsureTargetYield(ui, c.currencies, b.activeCurrency) == YieldResult(true, false, b.activeCurrency, false, None)
  }

  /** No instrument switch is waiting out its cooldown at `now`. */
  predicate NotCoolingDown(c: Config, b: Bot, now: int)
  {
    !(b.isCurrencyChanging && now - b.lastCurrencyChange < CooldownSeconds(c.periodSeconds, c.periodMinutes))
  }

  lemma SteadyYieldChangesNothing(c: Config, b: Bot, ui: UiView, now: int)
    requires ConfigValid(c) && YieldSteady(c, b, ui)
    ensures SelectYield(c, b, ui, now) == Checked(true, b)
  {
  }

  /** Without an active sequence nothing happens unless the last
   *  offset_candles colours agree. */
  lemma NoSequenceWithoutPattern(c: Config, b: Bot, color: Color, ui: UiView, now: int)
    requires ConfigValid(c) && SequenceInvariant(b) && !b.isTradeActive
    requires |b.candles| < c.offsetCandles || !AllSame(LastColors(b.candles, c.offsetCandles))
    ensures ApplyTradeLogic(c, b, color, ui, now) == b
  {
  }

  /** The pattern arms a sequence: index 0 and a base bet in the colour of
   *  the oldest of the last offset_candles candles. */
  lemma PatternOpensBaseBet(c: Config, b: Bot, color: Color, ui: UiView, now: int)
    requires ConfigValid(c) && SequenceInvariant(b) && !b.isTradeActive
    requires |b.candles| >= c.offsetCandles && AllSame(LastColors(b.candles, c.offsetCandles))
    requires YieldSteady(c, b, ui) && NotCoolingDown(c, b, now)
    ensures var r := ApplyTradeLogic(c, b, color, ui, now);
            var target := b.candles[|b.candles| - c.offsetCandles].color;
            r.isTradeActive && r.betIndex == 0 && r.trades == b.trades &&
            r.activeBet == Some(Bet(target, c.tiers[0], b.window.end + c.periodMinutes * 60)) &&
            r.intents == b.intents + [SetAmount(c.tiers[0]), TakePosition(target)] +
                         (if 1 < |c.tiers| then [SetAmount(c.tiers[1])] else [])
  {
  }

  /** Settling an open bet appends exactly one record, with the bet's colour
   *  and stake, that is a win exactly when the candle has the bet's colour. */
  lemma OpenBetIsSettledOnce(c: Config, b: Bot, color: Color, ui: UiView, now: int)
    requires ConfigValid(c) && b.isTradeActive && b.activeBet.Some?
    requires |b.candles| >= c.offsetCandles && YieldSteady(c, b, ui) && NotCoolingDown(c, b, now)
    ensures var bet := b.activeBet.value;
            ApplyTradeLogic(c, b, color, ui, now).trades ==
            b.trades + [TradeRecord(now, bet.color, bet.amount, color, if color == bet.color then Win else Loss)]
  {
  }

  /** A win goes back to the first rung and bets again in the pattern's direction. */
  lemma WinResetsLadder(c: Config, b: Bot, color: Color, ui: UiView, now: int)
    requires ConfigValid(c) && b.isTradeActive && b.activeBet.Some? && color == b.activeBet.value.color
    requires |b.candles| >= c.offsetCandles && YieldSteady(c, b, ui) && NotCoolingDown(c, b, now)
    ensures var r := ApplyTradeLogic(c, b, color, ui, now);
            var target := b.candles[|b.candles| - c.offsetCandles].color;
            r.isTradeActive && r.betIndex == 0 &&
            r.activeBet == Some(Bet(target, c.tiers[0], b.window.end + c.periodMinutes * 60)) &&
            r.intents == b.intents + [SetAmount(c.tiers[0]), TakePosition(target)] +
                         (if 1 < |c.tiers| then [SetAmount(c.tiers[1])] else [])
  {
  }

  /** A loss below the top of the ladder climbs one rung. */
  lemma LossClimbsLadder(c: Config, b: Bot, color: Color, ui: UiView, now: int)
    requires ConfigValid(c) && b.isTradeActive && b.activeBet.Some? && color != b.activeBet.value.color
    requires |b.candles| >= c.offsetCandles && YieldSteady(c, b, ui) && NotCoolingDown(c, b, now)
    requires b.betIndex + 1 < |c.tiers|
    ensures var r := ApplyTradeLogic(c, b, color, ui, now);
            var target := b.candles[|b.candles| - c.offsetCandles].color;
            var next := b.betIndex + 1;
            r.isTradeActive && r.betIndex == next &&
            r.activeBet == Some(Bet(target, c.tiers[next], b.window.end + c.periodMinutes * 60)) &&
            r.intents == b.intents + [TakePosition(target),
                                      SetAmount(if next + 1 < |c.tiers| then c.tiers[next + 1] else c.tiers[0])]
  {
  }

  /** A loss on the top rung ends the sequence at the base stake. */
  lemma LossAtTopHalts(c: Config, b: Bot, color: Color, ui: UiView, now: int)
    requires ConfigValid(c) && b.isTradeActive && b.activeBet.Some? && color != b.activeBet.value.color
    requires |b.candles| >= c.offsetCandles && YieldSteady(c, b, ui) && NotCoolingDown(c, b, now)
    requires b.betIndex + 1 >= |c.tiers|
    ensures var r := ApplyTradeLogic(c, b, color, ui, now);
            !r.isTradeActive && r.betIndex == 0 && r.activeBet.None? &&
            r.intents[|r.intents| - 2..] == [SetAmount(c.tiers[0]), SetAmount(c.tiers[0])]
  {
  }

  /** A failed yield check ends the sequence: index 0, no open bet, no trade recorded. */
  lemma YieldFailureHalts(c: Config, b: Bot, color: Color, ui: UiView, now: int)
    requires ConfigValid(c) && SequenceInvariant(b) && |b.candles| >= c.offsetCandles
    requires b.isTradeActive || AllSame(LastColors(b.candles, c.offsetCandles))
    requires !EnsureTargetYield(ui, c.currencies, b.activeCurrency).ok
    ensures var r := ApplyTradeLogic(c, b, color, ui, now);
            !r.isTradeActive && r.betIndex == 0 && r.activeBet.None? && r.trades == b.trades
  {
  }

  /** While a switch cools down the step changes nothing at all: index, open
   *  bet and the sequence flag all stay as they were. */
  lemma CooldownIsANonTransition(c: Config, b: Bot, color: Color, ui: UiView, now: int)
    requires ConfigValid(c) && b.isTradeActive && |b.candles| >= c.offsetCandles && YieldSteady(c, b, ui)
    requires b.isCurrencyChanging && now - b.lastCurrencyChange < CooldownSeconds(c.periodSeconds, c.periodMinutes)
    ensures ApplyTradeLogic(c, b, color, ui, now) == b
  {
  }

  /** A switch during an active sequence drops the open bet and the ladder
   *  position and places nothing while the cooldown lasts; the sequence
   *  stays armed. */
  lemma SwitchSuspendsTrading(c: Config, b: Bot, color: Color, ui: UiView, now: int)
    requires ConfigValid(c) && b.isTradeActive && |b.candles| >= c.offsetCandles
    requires EnsureTargetYield(ui, c.currencies, b.activeCurrency).switched
    requires CooldownSeconds(c.periodSeconds, c.periodMinutes) > 0
    ensures var r := ApplyTradeLogic(c, b, color, ui, now);
            r.isTradeActive && r.isCurrencyChanging && r.lastCurrencyChange == now &&
            r.betIndex == 0 && r.activeBet.None? && r.trades == b.trades &&
            r.activeCurrency == EnsureTargetYield(ui, c.currencies, b.activeCurrency).active
  {
  }

  /** A log entry without a tick of the active instrument changes nothing. */
  lemma OtherTicksIgnored(c: Config, b: Bot, e: LogEntry)
    requires ConfigValid(c)
    requires e.tick.None? || Some(e.tick.value.code) != b.activeCurrency
    ensures OnEntry(c, b, e) == b
  {
  }

  /** A tick of the active instrument before the window's end is buffered and nothing else happens. */
  lemma EarlyTickOnlyBuffers(c: Config, b: Bot, e: LogEntry)
    requires ConfigValid(c) && e.tick.Some? && Some(e.tick.value.code) == b.activeCurrency
    requires NormalizeTimestamp(e.tick.value.time) < b.window.end
    ensures OnEntry(c, b, e) == b.(prices := b.prices + [PricePoint(NormalizeTimestamp(e.tick.value.time), e.tick.value.price)])
  {
  }

  /**
   * A tick of the active instrument at or after the window's end closes the
   * window. A window without ticks adds no candle and rolls straight over to
   * the next one; otherwise the candle of the window's ticks is appended and
   * the next window starts at the old end, or at the end of a window
   * re-initialised by a reset during the staking step.
   */
  lemma LateTickClosesWindow(c: Config, b: Bot, e: LogEntry)
    requires ConfigValid(c) && e.tick.Some? && Some(e.tick.value.code) == b.activeCurrency
    requires NormalizeTimestamp(e.tick.value.time) >= b.window.end
    ensures var r := OnEntry(c, b, e);
            var inWindow := InWindow(b.prices, b.window);
            r.window.end - r.window.start == Length(c) &&
            (inWindow == [] ==> r.candles == b.candles && r.window.start == b.window.end &&
                                r.trades == b.trades && r.activeBet == b.activeBet) &&
            (inWindow != [] ==> r.candles == b.candles + [BuildCandle(inWindow, b.window.start)] &&
                                (r.window.start == b.window.end || r.window.start == FirstWindow(c, e.now).end)) &&
            forall p :: p in r.prices ==> p.time > e.now - RetentionSeconds
  {
    var tick := e.tick.value;
    var t := NormalizeTimestamp(tick.time);
    var pt := PricePoint(t, tick.price);
    var b1 := b.(prices := b.prices + [pt]);
    InWindowIgnoresLateTick(b.prices, b.window, pt);
  }

  /** A tick at or after the window's end is not part of the window. */
  lemma InWindowIgnoresLateTick(ps: seq<PricePoint>, w: Window, p: PricePoint)
    requires p.time >= w.end
    ensures InWindow(ps + [p], w) == InWindow(ps, w)
  {
    FilterConcat(ps, [p], q => InRange(q, w));
    FilterSingleton(p, q => InRange(q, w));
  }

  /** Processing a batch of log keeps the invariants. */
  lemma {:induction false} ProcessEntriesKeepsInvariant(c: Config, b: Bot, entries: seq<LogEntry>)
    requires ConfigValid(c) && Invariant(c, b)
    ensures Invariant(c, ProcessEntries(c, b, entries))
    decreases |entries|
  {
    if entries != [] {
      ProcessEntriesKeepsInvariant(c, b, entries[..|entries| - 1]);
    }
  }

  /** Processing a batch only ever appends to the trade log and the candle history. */
  lemma {:induction false} ProcessEntriesOnlyAppends(c: Config, b: Bot, entries: seq<LogEntry>)
    requires ConfigValid(c)
    ensures var r := ProcessEntries(c, b, entries);
            |b.trades| <= |r.trades| && r.trades[..|b.trades|] == b.trades &&
            |b.candles| <= |r.candles| && r.candles[..|b.candles|] == b.candles &&
            |r.candles| - |b.candles| <= |entries| && |r.trades| - |b.trades| <= |entries|
    decreases |entries|
  {
    if entries != [] {
      var mid := ProcessEntries(c, b, entries[..|entries| - 1]);
      ProcessEntriesOnlyAppends(c, b, entries[..|entries| - 1]);
      var e := entries[|entries| - 1];
      var r := OnEntry(c, mid, e);
      assert r.trades[..|mid.trades|] == mid.trades;
      assert r.trades[..|b.trades|] == r.trades[..|mid.trades|][..|b.trades|];
      assert r.candles[..|b.candles|] == r.candles[..|mid.candles|][..|b.candles|];
    }
  }

  lemma ProcessWebsocketDataKeepsInvariant(c: Config, b: Bot, ui: UiView, now: int, entries: seq<LogEntry>)
    requires ConfigValid(c) && Invariant(c, b)
    ensures Invariant(c, ProcessWebsocketData(c, b, ui, now, entries))
  {
    if NoActiveCurrency(b) {
      var checked := SelectYield(c, b, ui, now);
      if checked.ok {
        ProcessEntriesKeepsInvariant(c, checked.bot.(window := FirstWindow(c, now), prices := [], candles := []), entries);
      }
    } else {
      ProcessEntriesKeepsInvariant(c, b, entries);
    }
  }

  /** Without an active instrument a failed selection processes nothing. */
  lemma NoInstrumentNoProcessing(c: Config, b: Bot, ui: UiView, now: int, entries: seq<LogEntry>)
    requires ConfigValid(c) && NoActiveCurrency(b)
    requires !EnsureTargetYield(ui, c.currencies, b.activeCurrency).ok
    ensures var r := ProcessWebsocketData(c, b, ui, now, entries);
            r.candles == b.candles && r.trades == b.trades && r.prices == b.prices && r.isTradeActive == b.isTradeActive
  {
  }

  /** Starting a bot that runs is a no-op that reports it is already running. */
  lemma StartGuard(c: Config, b: Bot, ui: UiView, now: int)
    requires ConfigValid(c)
    ensures b.isRunning ==> Start(c, b, ui, now) == (AlreadyRunning, b)
    ensures !b.isRunning ==>
            var (outcome, r) := Start(c, b, ui, now);
            outcome != AlreadyRunning &&
            (outcome == Started <==> EnsureTargetYield(ui, c.currencies, b.activeCurrency).ok) &&
            r.isRunning == (outcome == Started) && r.betIndex == 0 && r.activeBet.None?
  {
  }

  lemma StartKeepsInvariant(c: Config, b: Bot, ui: UiView, now: int)
    requires ConfigValid(c) && Invariant(c, b)
    ensures Invariant(c, Start(c, b, ui, now).1)
  {
  }
}
