/**
 * The history accessors: the last n candles and the last n trade records.
 */
module History {
  function Min(a: int, b: int): int { if a <= b then a else b }

  /** Python's s[i:], where a negative i counts from the end and any i is
   *  clipped to the sequence. */
  function PySliceFrom<T>(s: seq<T>, i: int): (r: seq<T>)
    ensures |r| <= |s| && r == s[|s| - |r|..]
    ensures i >= 0 ==> |r| == |s| - Min(i, |s|)
    ensures i < 0 ==> |r| == Min(-i, |s|)
  {
    if i < 0 then (if |s| + i < 0 then s else s[|s| + i..])
    else if i <= |s| then s[i..] else []
  }

  /** pandas' tail(n): the last n items, nothing for n = 0, and for a
   *  negative n everything but the first -n items. */
  function Tail<T>(s: seq<T>, n: int): (r: seq<T>)
    ensures |r| <= |s| && r == s[|s| - |r|..]
    ensures n >= 0 ==> |r| == Min(n, |s|)
    ensures n < 0 ==> |r| == |s| - Min(-n, |s|)
  {
    if n == 0 then [] else PySliceFrom(s, -n)
  }

  /** get_trade_history as written: trade_history_log[-last_n:]. */
  function TradeHistoryAsWritten<T>(log: seq<T>, lastN: int): (r: seq<T>)
    ensures |r| <= |log| && r == log[|log| - |r|..]
    ensures lastN > 0 ==> |r| == Min(lastN, |log|)
    ensures lastN <= 0 ==> |r| == |log| - Min(-lastN, |log|)
  {
    if log == [] then [] else PySliceFrom(log, -lastN)
  }

  /** Asking for the last 0 trades returns the whole non-empty log, since
   *  [-0:] is [0:]; the candle accessor returns nothing for the same request. */
  lemma TradeHistoryOfZeroIsWholeLog<T>(log: seq<T>)
    requires log != []
    ensures TradeHistoryAsWritten(log, 0) == log
    ensures Tail(log, 0) == [] && TradeHistoryAsWritten(log, 0) != Tail(log, 0)
  {
  }

  /** get_trade_history as evidently intended, with tail semantics like the
   *  candle accessor: the last min(n, |log|) records, in order. */
  function TradeHistory<T>(log: seq<T>, lastN: int): (r: seq<T>)
    ensures lastN >= 0 ==> |r| == Min(lastN, |log|) && r == log[|log| - |r|..]
    ensures lastN == 0 ==> r == []
  {
    if log == [] then [] else Tail(log, lastN)
  }
}
