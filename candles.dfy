/**
 * Tick-to-OHLC aggregation: which buffered ticks fall in a window and the
 * candle they make. Prices are integers because they are only compared.
 */
module Candles {
  import opened Wrappers
  import opened Clock

  datatype Color = Green | Red

  /** A raw price tick as it arrives: instrument code, raw timestamp, price. */
  datatype Tick = Tick(code: string, time: int, price: int)

  /** A buffered tick, its time already in whole seconds. */
  datatype PricePoint = PricePoint(time: int, price: int)

  /** A closed candle; `start` is the opening time of its window. */
  datatype Candle = Candle(open: int, high: int, low: int, close: int, color: Color, start: int)

  /** Green when the close is strictly above the open; a flat candle is red. */
  function CandleColor(open: int, close: int): (c: Color)
    ensures c == Green <==> close > open
    ensures open == close ==> c == Red
  {
    if close > open then Green else Red
  }

  /** The buffered points, in arrival order, that `keep` accepts. */
  function Filter(ps: seq<PricePoint>, keep: PricePoint -> bool): (r: seq<PricePoint>)
    ensures |r| <= |ps|
    ensures forall p :: p in r ==> p in ps && keep(p)
    ensures forall p :: p in ps && keep(p) ==> p in r
  {
    if ps == [] then []
    else
      var rest := Filter(ps[1..], keep);
      if keep(ps[0]) then [ps[0]] + rest else rest
  }

  predicate InRange(p: PricePoint, w: Window)
  {
    w.start <= p.time < w.end
  }

  /** A single point is kept exactly when it is accepted. */
  lemma FilterSingleton(p: PricePoint, keep: PricePoint -> bool)
    ensures Filter([p], keep) == if keep(p) then [p] else []
  {
    assert [p][1..] == [];
  }

  /** Filtering commutes with concatenation, so the kept points stay in the
   *  order of the input. */
  lemma {:induction false} FilterConcat(ps: seq<PricePoint>, qs: seq<PricePoint>, keep: PricePoint -> bool)
    ensures Filter(ps + qs, keep) == Filter(ps, keep) + Filter(qs, keep)
    decreases |ps|
  {
    if ps == [] {
      assert ps + qs == qs;
    } else {
      assert (ps + qs)[0] == ps[0];
      assert (ps + qs)[1..] == ps[1..] + qs;
      FilterConcat(ps[1..], qs, keep);
    }
  }

  /** The ticks of the window [start, end), in the order they were buffered. */
  function InWindow(ps: seq<PricePoint>, w: Window): seq<PricePoint>
  {
    Filter(ps, p => InRange(p, w))
  }

  /** The first point that a filter keeps is the first point of the input it
   *  accepts; `j` is its index in the input. */
  lemma {:induction false} FilterFirst(ps: seq<PricePoint>, keep: PricePoint -> bool) returns (j: int)
    requires Filter(ps, keep) != []
    ensures 0 <= j < |ps| && ps[j] == Filter(ps, keep)[0] && keep(ps[j])
    ensures forall k :: 0 <= k < j ==> !keep(ps[k])
  {
    if keep(ps[0]) {
      j := 0;
    } else {
      var i := FilterFirst(ps[1..], keep);
      j := i + 1;
      assert ps[j] == ps[1..][i];
      forall k | 0 < k < j ensures !keep(ps[k]) {
        assert ps[k] == ps[1..][k - 1];
      }
    }
  }

  /** A filter that keeps nothing accepts no point of its input. */
  lemma {:induction false} FilterEmpty(ps: seq<PricePoint>, keep: PricePoint -> bool)
    requires Filter(ps, keep) == []
    ensures forall k :: 0 <= k < |ps| ==> !keep(ps[k])
  {
    if ps != [] {
      FilterEmpty(ps[1..], keep);
      forall k | 0 < k < |ps| ensures !keep(ps[k]) {
        assert ps[k] == ps[1..][k - 1];
      }
    }
  }

  /** The last point that a filter keeps is the last point of the input it
   *  accepts; `j` is its index in the input. */
  lemma {:induction false} FilterLast(ps: seq<PricePoint>, keep: PricePoint -> bool) returns (j: int)
    requires Filter(ps, keep) != []
    ensures var r := Filter(ps, keep); 0 <= j < |ps| && ps[j] == r[|r| - 1] && keep(ps[j])
    ensures forall k :: j < k < |ps| ==> !keep(ps[k])
  {
    var r := Filter(ps, keep);
    var rest := Filter(ps[1..], keep);
    if rest == [] {
      FilterEmpty(ps[1..], keep);
      forall k | 0 < k < |ps| ensures !keep(ps[k]) {
        assert ps[k] == ps[1..][k - 1];
      }
      j := 0;
    } else {
      var i := FilterLast(ps[1..], keep);
      j := i + 1;
      assert r[|r| - 1] == rest[|rest| - 1];
      assert ps[j] == ps[1..][i];
      forall k | j < k < |ps| ensures !keep(ps[k]) {
        assert ps[k] == ps[1..][k - 1];
      }
    }
  }

  /** The highest price among the points. */
  function MaxPrice(ps: seq<PricePoint>): (m: int)
    requires ps != []
    ensures forall i :: 0 <= i < |ps| ==> ps[i].price <= m
    ensures exists i :: 0 <= i < |ps| && ps[i].price == m
  {
    if |ps| == 1 then ps[0].price
    else
      var rest := MaxPrice(ps[1..]);
      assert forall i :: 1 <= i < |ps| ==> ps[i] == ps[1..][i - 1];
      if ps[0].price >= rest then ps[0].price else rest
  }

  /** The lowest price among the points. */
  function MinPrice(ps: seq<PricePoint>): (m: int)
    requires ps != []
    ensures forall i :: 0 <= i < |ps| ==> m <= ps[i].price
    ensures exists i :: 0 <= i < |ps| && ps[i].price == m
  {
    if |ps| == 1 then ps[0].price
    else
      var rest := MinPrice(ps[1..]);
      assert forall i :: 1 <= i < |ps| ==> ps[i] == ps[1..][i - 1];
      if ps[0].price <= rest then ps[0].price else rest
  }

  /**
   * The candle of a non-empty run of ticks: open is the first price, close
   * the last, high the maximum and low the minimum, so the body of the
   * candle lies between its low and its high.
   */
  function BuildCandle(ps: seq<PricePoint>, start: int): (c: Candle)
    requires ps != []
    ensures c.open == ps[0].price && c.close == ps[|ps| - 1].price && c.start == start
    ensures forall i :: 0 <= i < |ps| ==> c.low <= ps[i].price <= c.high
    ensures (exists i :: 0 <= i < |ps| && ps[i].price == c.high) &&
            (exists i :: 0 <= i < |ps| && ps[i].price == c.low)
    ensures c.low <= c.open && c.low <= c.close && c.open <= c.high && c.close <= c.high
    ensures c.color == Green <==> c.close > c.open
  {
    var open := ps[0].price;
    var close := ps[|ps| - 1].price;
    Candle(open, MaxPrice(ps), MinPrice(ps), close, CandleColor(open, close), start)
  }

  /** The candle the window `w` closes with, or None when no tick fell in it. */
  function CloseCandle(ps: seq<PricePoint>, w: Window): (r: Option<Candle>)
    ensures r.None? <==> forall p :: p in ps ==> !InRange(p, w)
  {
    var inWindow := InWindow(ps, w);
    if inWindow == [] then None
    else
      assert inWindow[0] in inWindow;
      Some(BuildCandle(inWindow, w.start))
  }

  /**
   * The candle of a window: its open is the price of the first buffered tick
   * of the window, its close that of the last, and every tick of the window
   * lies between its low and its high.
   */
  lemma ClosedCandleFromWindow(ps: seq<PricePoint>, w: Window)
    requires CloseCandle(ps, w).Some?
    ensures var c := CloseCandle(ps, w).value;
            c.start == w.start &&
            (exists j :: 0 <= j < |ps| && InRange(ps[j], w) && ps[j].price == c.open &&
                         forall k :: 0 <= k < j ==> !InRange(ps[k], w)) &&
            (exists j :: 0 <= j < |ps| && InRange(ps[j], w) && ps[j].price == c.close &&
                         forall k :: j < k < |ps| ==> !InRange(ps[k], w)) &&
            (forall p :: p in ps && InRange(p, w) ==> c.low <= p.price <= c.high)
  {
    var keep := p => InRange(p, w);
    var r := Filter(ps, keep);
    var first := FilterFirst(ps, keep);
    var last := FilterLast(ps, keep);
    var c := BuildCandle(r, w.start);
    forall p | p in ps && InRange(p, w) ensures c.low <= p.price <= c.high {
      assert keep(p);
      var i :| 0 <= i < |r| && r[i] == p;
    }
  }
}
