/** The dictionaries that simulator and paper manager keep per symbol: the active candle, a bounded
  history of candles, the next funding time, and what marks a position to its last price.
 */
module PerSymbol {
  import opened Basics
  import opened Candles
  import opened PaperMath
  import opened SimSpec
  import Funding

  function KeptOf(candles: map<string, seq<Candle>>, symbol: string): seq<Candle> {
    if symbol in candles then candles[symbol] else []
  }

  function ActiveOf(active: map<string, Candle>, symbol: string): Option<Candle> {
    if symbol in active then Some(active[symbol]) else None
  }

  /** The active candle, and the last cap of the finalized ones. */
  ghost predicate SameCandles(
    cap: nat, candles: map<string, seq<Candle>>, active: map<string, Candle>, aggs: map<string, Agg>)
  {
    && (forall symbol :: AggOf(aggs, symbol).active == ActiveOf(active, symbol))
    && (forall symbol :: KeptOf(candles, symbol) == Tail(LogOf(aggs, symbol), cap))
  }

  ghost predicate SameClocks(next: map<string, int>, clocks: map<string, Funding.Clock>) {
    && (forall symbol :: symbol in next <==> ClockOf(clocks, symbol).Running?)
    && (forall symbol :: symbol in next ==>
          next[symbol] == ClockOf(clocks, symbol).next && next[symbol] % Funding.PERIOD == 0)
  }

  lemma AfterFinalize(
    cap: nat, candles: map<string, seq<Candle>>, active: map<string, Candle>, aggs: map<string, Agg>, symbol: string)
    requires SameCandles(cap, candles, active, aggs) && symbol in active
    ensures SameCandles(cap, candles[symbol := Tail(KeptOf(candles, symbol) + [active[symbol]], cap)],
                        active - {symbol}, aggs[symbol := Agg(None, LogOf(aggs, symbol) + [active[symbol]])])
  {
    var c := active[symbol];
    var aggs' := aggs[symbol := Agg(None, LogOf(aggs, symbol) + [c])];
    var candles' := candles[symbol := Tail(KeptOf(candles, symbol) + [c], cap)];
    TailGrows(LogOf(aggs, symbol), cap, c);
    forall other ensures AggOf(aggs', other).active == ActiveOf(active - {symbol}, other) {
      assert AggOf(aggs, other).active == ActiveOf(active, other);
    }
    forall other ensures KeptOf(candles', other) == Tail(LogOf(aggs', other), cap) {
      assert KeptOf(candles, other) == Tail(LogOf(aggs, other), cap);
    }
  }

  lemma AfterFeed(
    cap: nat, candles: map<string, seq<Candle>>, active: map<string, Candle>, aggs: map<string, Agg>,
    symbol: string, a: Agg)
    requires SameCandles(cap, candles, active, aggs) && a.active.Some? && a.done == LogOf(aggs, symbol)
    ensures SameCandles(cap, candles, active[symbol := a.active.value], aggs[symbol := a])
  {
    var aggs', active' := aggs[symbol := a], active[symbol := a.active.value];
    forall other ensures AggOf(aggs', other).active == ActiveOf(active', other) {
      assert AggOf(aggs, other).active == ActiveOf(active, other);
    }
    forall other ensures KeptOf(candles, other) == Tail(LogOf(aggs', other), cap) {
      assert KeptOf(candles, other) == Tail(LogOf(aggs, other), cap);
    }
  }

  function NextOf(clocks: map<string, Funding.Clock>, symbol: string, ts: int): int {
    var c := ClockOf(clocks, symbol);
    if c.Idle? then Funding.NextBoundary(ts + 1) else c.next
  }

  /** The funding loop of one event, seen from the dictionary of next funding times. */
  lemma AfterTick(next: map<string, int>, clocks: map<string, Funding.Clock>, symbol: string, ts: int)
    requires SameClocks(next, clocks)
    ensures var c, n := ClockOf(clocks, symbol), NextOf(clocks, symbol, ts);
            var c' := Funding.Tick(c, ts);
            && Fired(c') - Fired(c) == |Funding.Due(n, ts)|
            && (Funding.NextAfter(n, ts) % Funding.PERIOD == 0 ==>
                  SameClocks(next[symbol := Funding.NextAfter(n, ts)], clocks[symbol := c']))
  {
    var n := NextOf(clocks, symbol, ts);
    var next' := next[symbol := Funding.NextAfter(n, ts)];
    var clocks' := clocks[symbol := Funding.Tick(ClockOf(clocks, symbol), ts)];
    forall other ensures other in next' <==> ClockOf(clocks', other).Running? {
      assert other in next <==> ClockOf(clocks, other).Running?;
    }
    if Funding.NextAfter(n, ts) % Funding.PERIOD == 0 {
      forall other | other in next'
        ensures next'[other] == ClockOf(clocks', other).next && next'[other] % Funding.PERIOD == 0
      {
        if other != symbol { assert other in next; }
      }
    }
  }

  lemma PaidOnceMore(p: Position, rate: real, times: nat)
    ensures Paid(Paid(p, rate, times), rate, 1) == Paid(p, rate, times + 1)
    ensures Paid(p, rate, 0) == p
  {
    var d := FundingDelta(rate, p.entryPrice * p.qty, p.dir);
    assert (times + 1) as real * d == times as real * d + d;
  }

  /** What a position adds to equity at the last price of its symbol. */
  method MarkedProfit(pos: Position, lastPrice: map<string, real>) returns (upnl: real)
    ensures upnl == Mtm(pos, lastPrice)
  {
    if pos.symbol !in lastPrice { return 0.0; }
    var px := lastPrice[pos.symbol];
    upnl := if pos.dir == Long then (px - pos.entryPrice) * pos.qty else (pos.entryPrice - px) * pos.qty;
    upnl := upnl - pos.fundingPaid;
  }
}
