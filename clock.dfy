/**
 * Candle-window bookkeeping of the trading bot.
 *
 * Instants are whole seconds since the Unix epoch. The configured time zone
 * is a whole number of minutes away from UTC, so "the start of the minute" is
 * the same instant in the zone and in UTC.
 */
module Clock {
  /** A raw tick timestamp above this value is read as milliseconds. */
  const MillisecondThreshold: int := 1_000_000_000_000

  /** The half-open window [start, end) of the candle being accumulated. */
  datatype Window = Window(start: int, end: int)

  /** Length in seconds of a candle window: the sub-minute period when it lies
   *  strictly between 0 and 60, otherwise the period in whole minutes. */
  function WindowLength(periodSeconds: int, periodMinutes: int): int
  {
    if 0 < periodSeconds < 60 then periodSeconds else periodMinutes * 60
  }

  /**
   * The first window, computed from the clock. The seconds of `now` are
   * zeroed before the sub-minute alignment reads them, so the amount taken
   * off for alignment is always 0 and the window starts on a whole minute.
   */
  function InitialWindow(periodSeconds: int, periodMinutes: int, now: int): (w: Window)
    ensures w.start % 60 == 0
    ensures w.start <= now < w.start + 60
    ensures 0 < periodSeconds < 60 ==> w.end - w.start == periodSeconds
    ensures !(0 < periodSeconds < 60) ==> w.end - w.start == periodMinutes * 60
  {
    var minuteStart := now - now % 60;
    assert minuteStart % 60 == 0;
    if 0 < periodSeconds < 60 then
      var currentSeconds := minuteStart % 60;
      var secondsToSubtract := currentSeconds % periodSeconds;
      assert secondsToSubtract == 0;
      var start := minuteStart - secondsToSubtract;
      Window(start, start + periodSeconds)
    else
      Window(minuteStart, minuteStart + periodMinutes * 60)
  }

  /** The window that follows `w` once it has closed. */
  function NextWindow(w: Window, periodSeconds: int, periodMinutes: int): (n: Window)
    ensures n.start == w.end
    ensures n.end - n.start == WindowLength(periodSeconds, periodMinutes)
  {
    var start := w.end;
    if 0 < periodSeconds < 60 then Window(start, start + periodSeconds)
    else Window(start, start + periodMinutes * 60)
  }

  /** A sub-minute window is not aligned to the clock: at 37 seconds past the
   *  minute with a 5-second period the first window is [0, 5), over before
   *  the bot starts listening. */
  lemma InitialWindowMayLieInThePast()
    ensures var w := InitialWindow(5, 1, 37); w == Window(0, 5) && 37 >= w.end
  {
  }

  /**
   * Tick time in whole seconds: a raw value above the threshold is in
   * milliseconds and is divided by 1000 (rounded down), any other value is
   * already in seconds.
   */
  function NormalizeTimestamp(raw: int): (t: int)
    ensures raw > MillisecondThreshold ==> t * 1000 <= raw < t * 1000 + 1000
    ensures raw <= MillisecondThreshold ==> t == raw
  {
    if raw > MillisecondThreshold then raw / 1000 else raw
  }

  /** Rounding a millisecond timestamp down to whole seconds loses nothing
   *  when it is compared with a whole-second window bound. */
  lemma NormalizeIsExactAtBounds(raw: int, bound: int)
    requires raw > MillisecondThreshold
    ensures NormalizeTimestamp(raw) >= bound <==> raw >= bound * 1000
    ensures NormalizeTimestamp(raw) < bound <==> raw < bound * 1000
  {
    var t := NormalizeTimestamp(raw);
    if t >= bound {
      assert raw >= t * 1000 >= bound * 1000;
    } else {
      assert t + 1 <= bound;
      assert raw < (t + 1) * 1000 <= bound * 1000;
    }
  }

  /**
   * How long, in seconds, trading waits after an instrument switch: two
   * periods. The test here is "period_seconds > 0", not the window's
   * "0 < period_seconds < 60".
   */
  function CooldownSeconds(periodSeconds: int, periodMinutes: int): (s: int)
    ensures periodSeconds < 60 ==> s == 2 * WindowLength(periodSeconds, periodMinutes)
    ensures periodSeconds >= 60 ==> s == 2 * periodSeconds
  {
    if periodSeconds > 0 then periodSeconds * 2 else periodMinutes * 60 * 2
  }
}
