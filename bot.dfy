/**
 * TradingBot with the fields its methods update in place. Most methods are
 * proved to make exactly the Engine transition of the same name;
 * GetCurrentYieldAndSelectBest makes Engine.SelectYield and ProcessEntry
 * makes Engine.OnEntry. InitializeTimestamps, SetPositionAmount and
 * TakePosition state their field updates directly. ProcessEntry,
 * ProcessWebsocketData and Start also keep the invariants.
 */
module BotRuntime {
  import opened Wrappers
  import opened Clock
  import opened Candles
  import opened YieldSelection
  import opened Engine
  import opened History

  class TradingBot {
    const periodSeconds: int
    const tradingPeriodMinutes: int
    const betSizeTiers: seq<int>
    const tradingOffsetCandles: int
    const currenciesMap: map<string, string>

    var currentActiveCurrency: Option<string>
    var isCurrencyChanging: bool
    var lastCurrencyChangeTime: int
    var currentCandleStartTime: int
    var currentCandleEndTime: int
    var priceHistoryStream: seq<PricePoint>
    var ohlcData: seq<Candle>
    var currentBetIndex: nat
    var activeBetDetails: Option<Bet>
    var tradeHistoryLog: seq<TradeRecord>
    var isTradeActiveNow: bool
    var isRunning: bool
    /** What the bot has asked the trading page to do, oldest first. */
    var intents: seq<Intent>

    function Cfg(): Config
    {
      Config(periodSeconds, tradingPeriodMinutes, betSizeTiers, tradingOffsetCandles, currenciesMap)
    }

    /** The value of the whole state. */
    function Snapshot(): Bot
      reads this
    {
      Bot(currentActiveCurrency, isCurrencyChanging, lastCurrencyChangeTime,
          Window(currentCandleStartTime, currentCandleEndTime), priceHistoryStream, ohlcData,
          currentBetIndex, activeBetDetails, tradeHistoryLog, isTradeActiveNow, isRunning, intents)
    }

    ghost predicate Valid()
      reads this
    {
      ConfigValid(Cfg()) && Invariant(Cfg(), Snapshot())
    }

    constructor (config: Config, now: int)
      requires ConfigValid(config)
      ensures Cfg() == config && Snapshot() == Initial(config, now) && Valid()
    {
      periodSeconds := config.periodSeconds;
      tradingPeriodMinutes := config.periodMinutes;
      betSizeTiers := config.tiers;
      tradingOffsetCandles := config.offsetCandles;
      currenciesMap := config.currencies;
      currentActiveCurrency := None;
      isCurrencyChanging := false;
      lastCurrencyChangeTime := now;
      priceHistoryStream := [];
      ohlcData := [];
      currentBetIndex := 0;
      activeBetDetails := None;
      tradeHistoryLog := [];
      isTradeActiveNow := false;
      isRunning := false;
      intents := [];
      var w := InitialWindow(config.periodSeconds, config.periodMinutes, now);
      currentCandleStartTime, currentCandleEndTime := w.start, w.end;
    }

    method InitializeTimestamps(now: int)
      modifies this
      ensures Snapshot() == old(Snapshot()).(window := FirstWindow(Cfg(), now))
    {
      var w := InitialWindow(periodSeconds, tradingPeriodMinutes, now);
      currentCandleStartTime, currentCandleEndTime := w.start, w.end;
    }

    /** Types the stake into the amount field. */
    method SetPositionAmount(amount: int)
      modifies this
      ensures Snapshot() == old(Snapshot()).(intents := old(intents) + [SetAmount(amount)])
    {
      intents := intents + [SetAmount(amount)];
    }

    /** Clicks CALL for green or PUT for red. */
    method TakePosition(color: Color)
      modifies this
      ensures Snapshot() == old(Snapshot()).(intents := old(intents) + [Intent.TakePosition(color)])
    {
      intents := intents + [Intent.TakePosition(color)];
    }

    method ResetTradeState(now: int)
      requires ConfigValid(Cfg())
      modifies this
      ensures Snapshot() == Engine.ResetTradeState(Cfg(), old(Snapshot()), now)
    {
      currentBetIndex := 0;
      activeBetDetails := None;
      SetPositionAmount(betSizeTiers[0]);
      InitializeTimestamps(now);
    }

    method GetCurrentYieldAndSelectBest(ui: UiView, now: int) returns (ok: bool)
      requires ConfigValid(Cfg())
      modifies this
      ensures Checked(ok, Snapshot()) == SelectYield(Cfg(), old(Snapshot()), ui, now)
    {
      if ui.payout.None? {
        return false;
      }
      if ui.payout.value != TargetPayout {
        ResetTradeState(now);
        if ui.catalog.None? {
          return false;
        }
        var active, selected := FindBestCurrency(ui.catalog.value, currenciesMap, currentActiveCurrency);
        currentActiveCurrency := active;
        if selected.None? {
          return false;
        }
        intents := intents + [SelectInstrument(selected.value)];
        isCurrencyChanging := true;
        lastCurrencyChangeTime := now;
      } else {
        if ui.displayed.None? {
          return false;
        }
        var name := ui.displayed.value;
        if name !in currenciesMap {
          currentActiveCurrency := None;
          return false;
        }
        var mappedCode := currenciesMap[name];
        if currentActiveCurrency != Some(mappedCode) {
          ResetTradeState(now);
          currentActiveCurrency := Some(mappedCode);
          isCurrencyChanging := true;
          lastCurrencyChangeTime := now;
        }
      }
      ok := true;
    }

    /** A bet at the first rung, with the next rung staged. */
    method OpenBaseBet(target: Color)
      requires ConfigValid(Cfg())
      modifies this
      ensures Snapshot() == Engine.OpenBaseBet(Cfg(), old(Snapshot()), target)
    {
      currentBetIndex := 0;
      var amount := betSizeTiers[currentBetIndex];
      SetPositionAmount(amount);
      activeBetDetails := Some(Bet(target, amount, currentCandleEndTime + tradingPeriodMinutes * 60));
      TakePosition(target);
      if currentBetIndex + 1 < |betSizeTiers| {
        SetPositionAmount(betSizeTiers[currentBetIndex + 1]);
      }
    }

    /** The ladder after a loss. */
    method LoseBet(target: Color, now: int)
      requires ConfigValid(Cfg())
      modifies this
      ensures Snapshot() == Engine.LoseBet(Cfg(), old(Snapshot()), target, now)
    {
      currentBetIndex := currentBetIndex + 1;
      if currentBetIndex < |betSizeTiers| {
        var amount := betSizeTiers[currentBetIndex];
        activeBetDetails := Some(Bet(target, amount, currentCandleEndTime + tradingPeriodMinutes * 60));
        TakePosition(target);
        if currentBetIndex + 1 < |betSizeTiers| {
          SetPositionAmount(betSizeTiers[currentBetIndex + 1]);
        } else {
          SetPositionAmount(betSizeTiers[0]);
        }
      } else {
        isTradeActiveNow := false;
        ResetTradeState(now);
        SetPositionAmount(betSizeTiers[0]);
      }
    }

    /** Win or loss of the open bet against the candle that just closed. */
    method SettleBet(color: Color, target: Color, now: int)
      requires ConfigValid(Cfg()) && activeBetDetails.Some?
      modifies this
      ensures Snapshot() == Engine.SettleBet(Cfg(), old(Snapshot()), color, target, now)
    {
      var bet := activeBetDetails.value;
      var win := color == bet.color;
      tradeHistoryLog := tradeHistoryLog + [TradeRecord(now, bet.color, bet.amount, color, if win then Win else Loss)];
      if win {
        OpenBaseBet(target);
      } else {
        LoseBet(target, now);
      }
    }

    /** Opens the base bet or settles the open one. */
    method StakeStep(color: Color, target: Color, now: int)
      requires ConfigValid(Cfg())
      modifies this
      ensures Snapshot() == Engine.StakeStep(Cfg(), old(Snapshot()), color, target, now)
    {
      if activeBetDetails.None? {
        OpenBaseBet(target);
      } else {
        SettleBet(color, target, now);
      }
    }

    /** An armed sequence: yield check, switch cooldown, then the stake step. */
    method ActiveSequenceStep(color: Color, target: Color, ui: UiView, now: int)
      requires ConfigValid(Cfg())
      modifies this
      ensures Snapshot() == Engine.ActiveSequenceStep(Cfg(), old(Snapshot()), color, target, ui, now)
    {
      var ok := GetCurrentYieldAndSelectBest(ui, now);
      if !ok {
        isTradeActiveNow := false;
        ResetTradeState(now);
        return;
      }
      if isCurrencyChanging {
        if now - lastCurrencyChangeTime < CooldownSeconds(periodSeconds, tradingPeriodMinutes) {
          return;
        }
        isCurrencyChanging := false;
      }
      StakeStep(color, target, now);
    }

    method ApplyTradeLogic(color: Color, ui: UiView, now: int)
      requires ConfigValid(Cfg())
      modifies this
      ensures Snapshot() == Engine.ApplyTradeLogic(Cfg(), old(Snapshot()), color, ui, now)
    {
      if |ohlcData| < tradingOffsetCandles {
        return;
      }
      var lastColors := LastColors(ohlcData, tradingOffsetCandles);
      if !isTradeActiveNow && AllSame(lastColors) {
        isTradeActiveNow := true;
        currentBetIndex := 0;
      }
      if isTradeActiveNow {
        ActiveSequenceStep(color, lastColors[0], ui, now);
      } else if activeBetDetails.Some? {
        ResetTradeState(now);
      }
    }

    /** Closes the current window: candle, trade logic, rollover, pruning. */
    method CloseWindow(now: int, ui: UiView)
      requires ConfigValid(Cfg())
      modifies this
      ensures Snapshot() == Engine.CloseWindow(Cfg(), old(Snapshot()), now, ui)
    {
      var candle := CloseCandle(priceHistoryStream, Window(currentCandleStartTime, currentCandleEndTime));
      if candle.Some? {
        ohlcData := ohlcData + [candle.value];
        ApplyTradeLogic(candle.value.color, ui, now);
      }
      var w := NextWindow(Window(currentCandleStartTime, currentCandleEndTime), periodSeconds, tradingPeriodMinutes);
      currentCandleStartTime, currentCandleEndTime := w.start, w.end;
      var cutoff := now - RetentionSeconds;
      priceHistoryStream := Filter(priceHistoryStream, (p: PricePoint) => p.time > cutoff);
    }

    /** The handling of one log entry inside the loop over the browser's log. */
    method ProcessEntry(e: LogEntry)
      requires Valid()
      modifies this
      ensures Snapshot() == OnEntry(Cfg(), old(Snapshot()), e)
      ensures Valid()
    {
      if e.tick.None? {
        return;
      }
      var tick := e.tick.value;
      if Some(tick.code) != currentActiveCurrency {
        return;
      }
      var t := NormalizeTimestamp(tick.time);
      priceHistoryStream := priceHistoryStream + [PricePoint(t, tick.price)];
      if t >= currentCandleEndTime {
        CloseWindow(e.now, e.ui);
      }
    }

    /** One pass of the trading loop over a batch of the browser's log. */
    method ProcessWebsocketData(ui: UiView, now: int, entries: seq<LogEntry>)
      requires Valid()
      modifies this
      ensures Snapshot() == Engine.ProcessWebsocketData(Cfg(), old(Snapshot()), ui, now, entries)
      ensures Valid()
    {
      if currentActiveCurrency.None? || currentActiveCurrency.value == "" {
        var ok := GetCurrentYieldAndSelectBest(ui, now);
        if !ok {
          return;
        }
        InitializeTimestamps(now);
        priceHistoryStream := [];
        ohlcData := [];
      }
      ghost var start := Snapshot();
      for i := 0 to |entries|
        invariant Valid()
        invariant Snapshot() == ProcessEntries(Cfg(), start, entries[..i])
      {
        ProcessEntry(entries[i]);
        assert entries[..i + 1][..i] == entries[..i];
      }
      assert entries[..|entries|] == entries;
    }

    /** The start guard and the start-up before the trading loop. */
    method Start(ui: UiView, now: int) returns (outcome: StartOutcome)
      requires Valid()
      modifies this
      ensures (outcome, Snapshot()) == Engine.Start(Cfg(), old(Snapshot()), ui, now)
      ensures Valid()
    {
      if isRunning {
        return AlreadyRunning;
      }
      isRunning := true;
      ResetTradeState(now);
      var ok := GetCurrentYieldAndSelectBest(ui, now);
      if !ok {
        isRunning := false;
        return StartFailed;
      }
      outcome := Started;
    }

    /** The last n candles (all but the first -n for a negative n). */
    function GetOhlcHistory(lastN: int): (r: seq<Candle>)
      reads this
      ensures |r| <= |ohlcData| && r == ohlcData[|ohlcData| - |r|..]
      ensures lastN >= 0 ==> |r| == Min(lastN, |ohlcData|)
    {
      if ohlcData == [] then [] else Tail(ohlcData, lastN)
    }

    /** The last n trade records, with the same meaning of n as for candles. */
    function GetTradeHistory(lastN: int): (r: seq<TradeRecord>)
      reads this
      ensures |r| <= |tradeHistoryLog| && r == tradeHistoryLog[|tradeHistoryLog| - |r|..]
      ensures lastN >= 0 ==> |r| == Min(lastN, |tradeHistoryLog|)
    {
      TradeHistory(tradeHistoryLog, lastN)
    }
  }
}
