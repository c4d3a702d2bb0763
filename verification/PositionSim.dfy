/** The position simulator: its fields, updated in place, follow the state machine of SimSpec. */
module PositionSim {
  import opened Basics
  import opened Candles
  import opened PaperMath
  import opened SimSpec
  import opened PerSymbol
  import Funding

  ghost predicate SameBook(positions: seq<Position>, trades: seq<Trade>, realized: real, b: Book) {
    && |positions| == |b.open| && (forall i :: 0 <= i < |positions| ==> positions[i] == b.open[i].pos)
    && |trades| == |b.trades| && (forall k :: 0 <= k < |trades| ==> trades[k] == b.trades[k].trade)
    && realized == b.realized
  }

  lemma {:induction false} IndexIs(open: seq<Open>, symbol: string, i: nat)
    requires i <= |open| && (i < |open| ==> open[i].pos.symbol == symbol)
    requires forall j :: 0 <= j < i ==> open[j].pos.symbol != symbol
    ensures i == IndexOf(open, symbol)
  {}

  lemma PayOnceMore(b: Book, symbol: string, rate: real, times: nat)
    ensures PayFunding(PayFunding(b, symbol, rate, times), symbol, rate, 1) == PayFunding(b, symbol, rate, times + 1)
    ensures PayFunding(b, symbol, rate, 0) == b
  {
    var i := IndexOf(b.open, symbol);
    if i < |b.open| {
      var b1 := PayFunding(b, symbol, rate, times);
      IndexIs(b1.open, symbol, i);
      PaidOnceMore(b.open[i].pos, rate, times);
      assert b.open[i := b.open[i].(pos := Paid(b.open[i].pos, rate, 0))] == b.open;
    }
  }

  function Funded(cfg: Config, s: State, symbol: string, times: nat): State {
    s.(book := if cfg.includeFunding then PayFunding(s.book, symbol, RateOf(s.rates, symbol), times) else s.book)
  }

  function Clocked(s: State, symbol: string, ts: int): State {
    s.(clocks := s.clocks[symbol := Funding.Tick(ClockOf(s.clocks, symbol), ts)])
  }

  lemma FundingIs(cfg: Config, s: State, symbol: string, ts: int)
    ensures var s1 := Funded(cfg, s, symbol, |Funding.Due(NextOf(s.clocks, symbol, ts), ts)|);
            FundingPart(cfg, s, symbol, ts) == Clocked(s1, symbol, ts) && s1.clocks == s.clocks
  {}

  class PositionSimulator {
    const cfg: Config
    const cap: nat                              // candles kept per symbol
    var candles: map<string, seq<Candle>>
    var active: map<string, Candle>
    var positions: seq<Position>                // in order of entry
    var lastPrice: map<string, real>
    var lastFundingRate: map<string, real>
    var nextFunding: map<string, int>
    var trades: seq<Trade>
    var realizedEquity: real
    var rejection: Option<Reject>
    ghost var state: State

    ghost predicate Valid()
      reads this
    {
      && cap >= cfg.atrPeriod + 1
      && SameBook(positions, trades, realizedEquity, state.book)
      && SameCandles(cap, candles, active, state.aggs)
      && SameClocks(nextFunding, state.clocks)
      && lastPrice == state.prices && lastFundingRate == state.rates && rejection == state.rejected
    }

    constructor (cfg: Config)
      ensures Valid() && this.cfg == cfg && state == Start(cfg)
    {
      this.cfg := cfg;
      cap := if cfg.atrPeriod * 4 > 100 then cfg.atrPeriod * 4 else 100;
      candles, active, positions, lastPrice := map[], map[], [], map[];
      lastFundingRate, nextFunding, trades := map[], map[], [];
      realizedEquity, rejection := cfg.initialEquity, None;
      state := Start(cfg);
    }

    // -------------------------------------------------------------- positions

    method FindPosition(symbol: string) returns (i: nat)
      requires Valid()
      ensures i == IndexOf(state.book.open, symbol) && i <= |positions|
    {
      i := 0;
      while i < |positions| && positions[i].symbol != symbol
        invariant i <= |positions|
        invariant forall j :: 0 <= j < i ==> positions[j].symbol != symbol
      {
        i := i + 1;
      }
      IndexIs(state.book.open, symbol, i);
    }

    /** Equity marked to the last prices. */
    method MarkedEquity() returns (equity: real)
      requires Valid()
      ensures equity == Equity(state.book, state.prices)
    {
      equity := realizedEquity;
      for i := 0 to |positions|
        invariant equity == realizedEquity + SumMtm(state.book.open[..i], lastPrice)
      {
        assert state.book.open[..i + 1][..i] == state.book.open[..i] && state.book.open[i].pos == positions[i];
        var marked := MarkedProfit(positions[i], lastPrice);
        equity := equity + marked;
      }
      assert state.book.open[..|positions|] == state.book.open;
    }

    method ClosePosition(i: nat, ts: int, exitPrice: real, reason: ExitReason, ghost at: nat)
      requires Valid() && i < |positions|
      modifies this`positions, this`trades, this`realizedEquity, this`state
      ensures Valid()
      ensures state == old(state).(book := CloseAt(cfg, old(state).book, i, ts, exitPrice, reason, at))
    {
      var trade := TradeOf(positions[i], ts, exitPrice, reason);
      positions := positions[..i] + positions[i + 1..];
      trades := trades + [trade];
      realizedEquity := realizedEquity + trade.pnlNet;
      state := state.(book := CloseAt(cfg, state.book, i, ts, exitPrice, reason, at));
    }

    method TradeOf(pos: Position, ts: int, exitPrice: real, reason: ExitReason) returns (trade: Trade)
      ensures trade == MakeTrade(cfg, pos, ts, exitPrice, reason)
    {
      var gross :=
        if pos.dir == Long then (exitPrice - pos.entryPrice) * pos.qty else (pos.entryPrice - exitPrice) * pos.qty;
      var feeRate := if reason == TakeProfit then cfg.feeMaker else cfg.feeTaker;
      var fees := pos.entryFee + exitPrice * pos.qty * feeRate;
      var net := gross - fees - pos.fundingPaid;
      var rDist := Abs(pos.entryPrice - pos.slPrice);
      var r := 0.0;
      if rDist > 0.0 {
        r := if pos.dir == Long then (exitPrice - pos.entryPrice) / rDist else (pos.entryPrice - exitPrice) / rDist;
      }
      trade := Trade(pos, ts, exitPrice, reason, fees, gross, net, r);
    }

    // -------------------------------------------------------------- candles

    /** Takes the active candle of the symbol, keeps it in the bounded history, and lets the position
        of the symbol exit on it. */
    method FinalizeCandle(symbol: string)
      requires Valid()
      modifies this
      ensures Valid() && symbol !in active
      ensures state == FinalizeActive(cfg, old(state), symbol)
    {
      if symbol !in active {
        assert AggOf(state.aggs, symbol).active.None?;
        return;
      }
      var c := active[symbol];
      ghost var s0 := state;
      ghost var log := LogOf(state.aggs, symbol);
      var kept := if symbol in candles then candles[symbol] else [];
      AfterFinalize(cap, candles, active, state.aggs, symbol);
      active := active - {symbol};
      candles := candles[symbol := Tail(kept + [c], cap)];
      state := state.(aggs := state.aggs[symbol := Agg(None, log + [c])]);
      CheckExitsOnCandle(c, symbol, |log|);
      assert s0.aggs[symbol].active == Some(c);
    }

    method CheckExitsOnCandle(c: Candle, symbol: string, ghost at: nat)
      requires Valid()
      modifies this`positions, this`trades, this`realizedEquity, this`state
      ensures Valid()
      ensures state == old(state).(book := CheckExits(cfg, old(state).book, symbol, c, at))
    {
      var i := FindPosition(symbol);
      if i == |positions| { return; }
      var pos := positions[i];
      if c.sec <= pos.entryBucket { return; }
      var hitSl, hitTp;
      if pos.dir == Long {
        hitSl, hitTp := c.low <= pos.slPrice, c.high >= pos.tpPrice;
      } else {
        hitSl, hitTp := c.high >= pos.slPrice, c.low <= pos.tpPrice;
      }
      if hitSl {
        ClosePosition(i, c.sec * 1000, pos.slPrice, StopLoss, at);
      } else if hitTp {
        ClosePosition(i, c.sec * 1000, pos.tpPrice, TakeProfit, at);
      }
    }

    // -------------------------------------------------------------- feeds

    method OnBar(symbol: string, ev: Bar)
      requires Valid()
      modifies this
      ensures Valid() && state == CandlePart(cfg, old(state), symbol, ev)
    {
      assert AggOf(state.aggs, symbol).active == ActiveOf(active, symbol);
      if symbol in active && Bucket(ev.sec) > active[symbol].sec {
        FinalizeCandle(symbol);
      }
      FeedActive(symbol, ev);
    }

    /** The active candle after a bar: opened by it, merged with it, or as it was. */
    method NextCandle(symbol: string, ev: Bar) returns (c: Candle)
      requires Valid() && (symbol in active ==> Bucket(ev.sec) <= active[symbol].sec)
      ensures Feed(AggOf(state.aggs, symbol), ev) == Agg(Some(c), LogOf(state.aggs, symbol))
    {
      assert AggOf(state.aggs, symbol).active == ActiveOf(active, symbol);
      if symbol !in active { return NewCandle(ev); }
      c := active[symbol];
      if Bucket(ev.sec) == c.sec { c := MergeBar(c, ev); }
    }

    /** Opens a candle, merges into the active one, or drops the bar. */
    method FeedActive(symbol: string, ev: Bar)
      requires Valid() && (symbol in active ==> Bucket(ev.sec) <= active[symbol].sec)
      modifies this`active, this`state
      ensures Valid()
      ensures state == old(state).(aggs := old(state).aggs[symbol := Feed(AggOf(old(state).aggs, symbol), ev)])
    {
      var c := NextCandle(symbol, ev);
      ghost var a := Feed(AggOf(state.aggs, symbol), ev);
      AfterFeed(cap, candles, active, state.aggs, symbol, a);
      active := active[symbol := c];
      state := state.(aggs := state.aggs[symbol := a]);
    }

    method ApplyFunding(symbol: string)
      requires Valid()
      modifies this`positions, this`state
      ensures Valid()
      ensures state == old(state).(book := PayFunding(old(state).book, symbol, RateOf(old(state).rates, symbol), 1))
    {
      var i := FindPosition(symbol);
      if i == |positions| { return; }
      var pos := positions[i];
      var rate := if symbol in lastFundingRate then lastFundingRate[symbol] else 0.0;
      var notional := pos.entryPrice * pos.qty;
      var paid := if pos.dir == Long then pos.fundingPaid + rate * notional else pos.fundingPaid - rate * notional;
      positions := positions[i := pos.(fundingPaid := paid)];
      state := state.(book := PayFunding(state.book, symbol, rate, 1));
    }

    method OnClock(symbol: string, ts: int)
      requires Valid()
      modifies this`positions, this`nextFunding, this`state
      ensures Valid() && state == FundingPart(cfg, old(state), symbol, ts)
    {
      FundingIs(cfg, state, symbol, ts);
      var next := NextDue(symbol, ts);
      var last := FundUntil(symbol, next, ts);
      SetClock(symbol, last, ts);
    }

    method NextDue(symbol: string, ts: int) returns (next: int)
      requires Valid()
      ensures next == NextOf(state.clocks, symbol, ts) && next % Funding.PERIOD == 0
    {
      if symbol in nextFunding { return nextFunding[symbol]; }
      next := Funding.NextFundingTs(ts);
    }

    method SetClock(symbol: string, next: int, ts: int)
      requires Valid() && next == Funding.NextAfter(NextOf(state.clocks, symbol, ts), ts) && next % Funding.PERIOD == 0
      modifies this`nextFunding, this`state
      ensures Valid() && state == Clocked(old(state), symbol, ts)
    {
      AfterTick(nextFunding, state.clocks, symbol, ts);
      nextFunding := nextFunding[symbol := next];
      state := Clocked(state, symbol, ts);
    }

    /** The funding loop: it ends, and pays once per boundary. */
    method FundUntil(symbol: string, from: int, ts: int) returns (next: int)
      requires Valid() && from % Funding.PERIOD == 0
      modifies this`positions, this`state
      ensures Valid() && next == Funding.NextAfter(from, ts) && next % Funding.PERIOD == 0
      ensures state == Funded(cfg, old(state), symbol, |Funding.Due(from, ts)|)
    {
      next := from;
      ghost var s0, paid: nat := state, 0;
      PayOnceMore(s0.book, symbol, RateOf(s0.rates, symbol), 0);
      while ts >= next
        invariant Valid() && next % Funding.PERIOD == 0
        invariant Funding.NextAfter(next, ts) == Funding.NextAfter(from, ts)
        invariant |Funding.Due(next, ts)| + paid == |Funding.Due(from, ts)|
        invariant state == Funded(cfg, s0, symbol, paid)
        decreases ts - next
      {
        if cfg.includeFunding {
          ApplyFunding(symbol);
          PayOnceMore(s0.book, symbol, RateOf(s0.rates, symbol), paid);
        }
        paid := paid + 1;
        Funding.OneTurn(next, ts);
        next := Funding.NextFundingTs(next + 1);
      }
    }

    method OnOhlcv(symbol: string, ev: Bar, ts: int)
      requires Valid()
      modifies this
      ensures Valid() && state == Step(cfg, old(state), Ohlcv(symbol, ev, ts))
    {
      OnBar(symbol, ev);
      OnClock(symbol, ts);
      lastPrice := lastPrice[symbol := ev.close];
      state := state.(prices := state.prices[symbol := ev.close]);
    }

    method OnTicker(symbol: string, rate: real)
      requires Valid()
      modifies this`lastFundingRate, this`state
      ensures Valid() && state == Step(cfg, old(state), Ticker(symbol, rate))
    {
      lastFundingRate := lastFundingRate[symbol := rate];
      state := Step(cfg, state, Ticker(symbol, rate));
    }

    // -------------------------------------------------------------- entries

    method OnEntry(symbol: string, dir: Direction, ts: int, close: real) returns (taken: bool)
      requires Valid()
      modifies this`positions, this`rejection, this`state
      ensures Valid() && state == Step(cfg, old(state), Entry(symbol, dir, ts, close))
      ensures taken <==> |positions| > |old(positions)|
    {
      var refusal := CheckLimits(symbol);
      SetRejection(refusal);
      if refusal.Some? { return false; }
      var atr := AtrNow(symbol);
      var equity := MarkedEquity();
      var pos := PlanPosition(equity, atr, symbol, dir, ts, close);
      if pos.None? { return false; }
      AddPosition(pos.value, equity);
      return true;
    }

    method AddPosition(pos: Position, ghost equity: real)
      requires Valid()
      modifies this`positions, this`state
      ensures Valid() && state == old(state).(book := old(state).book.(
                open := old(state).book.open + [Open(pos, equity, |LogOf(old(state).aggs, pos.symbol)|)]))
      ensures |positions| == |old(positions)| + 1
    {
      positions := positions + [pos];
      ghost var open := Open(pos, equity, |LogOf(state.aggs, pos.symbol)|);
      state := state.(book := state.book.(open := state.book.open + [open]));
    }

    method SetRejection(reason: Option<Reject>)
      requires Valid()
      modifies this`rejection, this`state
      ensures Valid() && state == old(state).(rejected := reason)
    {
      rejection := reason;
      state := state.(rejected := reason);
    }

    /** The ATR of the kept candles is the ATR of all of them. */
    method AtrNow(symbol: string) returns (atr: Option<real>)
      requires Valid()
      ensures atr == Atr(LogOf(state.aggs, symbol), cfg.atrPeriod)
    {
      var kept := if symbol in candles then candles[symbol] else [];
      assert KeptOf(candles, symbol) == Tail(LogOf(state.aggs, symbol), cap);
      AtrOfTail(LogOf(state.aggs, symbol), cap, cfg.atrPeriod);
      atr := ComputeAtr(kept, cfg.atrPeriod);
    }

    method CheckLimits(symbol: string) returns (refusal: Option<Reject>)
      requires Valid()
      ensures refusal == Refusal(cfg, state.book, symbol)
    {
      var i := FindPosition(symbol);
      if i < |positions| { return Some(SymbolTaken); }
      if |positions| >= cfg.maxGlobal { return Some(GlobalFull); }
      if cfg.maxPerSymbol < 1 { return Some(SymbolTaken); }
      return None;
    }

    method PlanPosition(equity: real, atr: Option<real>, symbol: string, dir: Direction, ts: int, close: real)
      returns (p: Option<Position>)
      ensures p == NewPosition(cfg, equity, atr, symbol, dir, ts, close)
    {
      if atr.None? || atr.value <= 0.0 || close <= 0.0 { return None; }
      var raw, capped, floor := cfg.slAtr * atr.value, cfg.maxSl * close, cfg.minSl * close;
      var distance := Clamp(raw, capped, floor);
      assert distance == SlDistance(atr.value, close, cfg.slAtr, cfg.maxSl, cfg.minSl);
      p := PlanFor(equity, distance, symbol, dir, ts, close);
    }

    method PlanFor(equity: real, distance: real, symbol: string, dir: Direction, ts: int, close: real)
      returns (p: Option<Position>)
      requires close > 0.0
      ensures p == PlanAt(cfg, equity, distance, symbol, dir, ts, close)
    {
      if distance <= 0.0 { return None; }
      var fill, sl, tp := EntryPrices(dir, close, distance);
      var qty := equity * cfg.riskPct / distance;
      if qty <= 0.0 { return None; }
      var fee := fill * qty * cfg.feeTaker;
      ghost var plan := PlanAt(cfg, equity, distance, symbol, dir, ts, close);
      assert plan.Some? && plan.value.qty == qty && plan.value.entryFee == fee;
      return Some(Position(symbol, dir, ts, Bucket(ts / 1000), fill, qty, sl, tp, fee, 0.0));
    }

    method EntryPrices(dir: Direction, close: real, distance: real) returns (fill: real, sl: real, tp: real)
      requires close > 0.0
      ensures fill == EntryFill(close, dir, cfg.slippageBps)
      ensures sl == SlPrice(fill, distance, dir) && tp == TpPrice(fill, distance, cfg.tpR, dir)
    {
      var slip := cfg.slippageBps / 10000.0;
      if dir == Long {
        fill := close * (1.0 + slip);
        sl, tp := fill - distance, fill + cfg.tpR * distance;
      } else {
        fill := close * (1.0 - slip);
        sl, tp := fill + distance, fill - cfg.tpR * distance;
      }
    }

    // -------------------------------------------------------------- the end

    /** order: the symbols with an active candle, as the dictionary lists them. */
    method Finalize(order: seq<string>, lastTs: int, lastPrices: map<string, real>)
      requires Valid()
      modifies this
      ensures Valid() && state == Step(cfg, old(state), Event.Finalize(order, lastTs, lastPrices))
      ensures positions == []
    {
      ghost var s0 := state;
      for i := 0 to |order|
        invariant Valid() && state == FinalizeCandles(cfg, s0, order[..i])
      {
        assert order[..i + 1][..i] == order[..i];
        FinalizeCandle(order[i]);
      }
      assert order[..|order|] == order;
      ghost var s1 := state;
      while |positions| > 0
        invariant Valid() && CloseAll(cfg, state, lastTs, lastPrices) == CloseAll(cfg, s1, lastTs, lastPrices)
        decreases |positions|
      {
        var pos := positions[0];
        var px := pos.entryPrice;
        if pos.symbol in lastPrices && lastPrices[pos.symbol] > 0.0 {
          px := lastPrices[pos.symbol];
        } else if pos.symbol in lastPrice {
          px := lastPrice[pos.symbol];
        }
        ClosePosition(0, lastTs, px, EndOfRun, |LogOf(state.aggs, pos.symbol)|);
      }
    }
  }
}
