/** The paper position manager and its database, updated in place; they follow PaperSpec. How a write ends
  is a parameter of the method that issues it.
 */
module PaperManager {
  import opened Basics
  import opened Candles
  import opened PaperMath
  import opened SimSpec
  import opened PaperSpec
  import opened PerSymbol
  import Funding

  class Database {
    var rows: Rows   // as the connection sees them
    var disk: Rows   // as last committed

    /** A new database. */
    constructor ()
      ensures rows == map[] && disk == map[]
    {
      rows, disk := map[], map[];
    }

    /** A new connection: what was not committed is gone. */
    method Reopen()
      modifies this
      ensures rows == disk == old(disk)
    {
      rows := disk;
    }

    /** A statement with this effect, and its commit. */
    method Execute(effect: Rows, w: Write) returns (done: bool)
      modifies this
      ensures done == w.Commits?
      ensures rows == (if w.Fails? then old(rows) else effect) && disk == if w.Commits? then effect else old(disk)
    {
      if w.Fails? { return false; }
      rows := effect;
      if w.Sticks? { return false; }
      disk := rows;
      return true;
    }

    /** The manager is told "done" even when the id was already there and nothing was inserted. */
    method WriteOpen(p: Position, w: Write) returns (done: bool)
      modifies this
      ensures done == w.Commits?
      ensures rows == (if w.Fails? then old(rows) else InsertRow(old(rows), p))
      ensures disk == if w.Commits? then rows else old(disk)
    {
      var id := Id(p.symbol, p.entryTs);
      done := Execute(if id in rows then rows else rows[id := Row(p, None)], w);
    }

    method WriteClose(t: Trade, fee: real, w: Write) returns (done: bool)
      requires fee == t.feePaid - t.pos.entryFee
      modifies this
      ensures done == w.Commits?
      ensures rows == (if w.Fails? then old(rows) else CloseRow(old(rows), t))
      ensures disk == if w.Commits? then rows else old(disk)
    {
      var id := Id(t.pos.symbol, t.pos.entryTs);
      var effect := rows;
      if id in rows && rows[id].exit.None? {
        var exit := Exit(t.exitTs, t.exitPrice, t.reason, fee, t.pnlGross, t.pnlNet, t.r);
        effect := rows[id := Row(rows[id].pos, Some(exit))];
      }
      done := Execute(effect, w);
    }
  }

  /** OPEN rows of a listing, which is what startup reports. */
  function CountOpen(rows: Rows, listing: seq<Id>): nat {
    if |listing| == 0 then 0
    else
      var id := listing[|listing| - 1];
      CountOpen(rows, listing[..|listing| - 1]) + if id in rows && rows[id].exit.None? then 1 else 0
  }

  ghost predicate Keyed(m: Memory) {
    forall x :: x in m ==> m[x].symbol == x
  }

  lemma TakeIs(cfg: PaperConfig, s: Paper, symbol: string, w: Write)
    ensures var c := AggOf(s.mk.aggs, symbol).active;
            TakeCandle(cfg, s, symbol, w) ==
            if c.None? then s else ExitCommit(cfg, s.(mk := Popped(s.mk, symbol)), symbol, c.value, w)
  {}

  lemma AfterPop(cap: nat, candles: map<string, seq<Candle>>, active: map<string, Candle>, mk: Market, symbol: string)
    requires SameCandles(cap, candles, active, mk.aggs) && symbol in active
    ensures var mk' := Popped(mk, symbol);
            && AggOf(mk.aggs, symbol).active == Some(active[symbol]) && mk' == mk.(aggs := mk'.aggs)
            && SameCandles(cap, candles[symbol := Tail(KeptOf(candles, symbol) + [active[symbol]], cap)],
                           active - {symbol}, mk'.aggs)
  {
    assert AggOf(mk.aggs, symbol).active == ActiveOf(active, symbol);
    AfterFinalize(cap, candles, active, mk.aggs, symbol);
  }

  /** The active candle opened by a bar does not depend on the exit on the candle before it. */
  lemma BarIs(cfg: PaperConfig, s: Paper, symbol: string, bar: Bar, w: Write)
    requires s.hand.Free? && bar.close > 0.0
    ensures var c := AggOf(s.mk.aggs, symbol).active;
            var s1 := if c.Some? && Bucket(bar.sec) > c.value.sec then Settle(TakeCandle(cfg, s, symbol, w)) else s;
            Settle(BarCommit(cfg, s, symbol, bar, w)) == s1.(mk := Fed(s1.mk, symbol, bar))
  {
    var c := AggOf(s.mk.aggs, symbol).active;
    var s1 := if c.Some? && Bucket(bar.sec) > c.value.sec then TakeCandle(cfg, s, symbol, w) else s;
    SettleKeepsMarket(s1, Fed(s1.mk, symbol, bar));
  }

  lemma SettleKeepsMarket(s: Paper, mk: Market)
    ensures Settle(s.(mk := mk)) == Settle(s).(mk := mk) && Settle(s).mk == s.mk
  {}

  lemma FundedOnceMore(cfg: PaperConfig, s: Paper, symbol: string, times: nat)
    ensures cfg.trading.includeFunding ==>
              Funded(cfg, Funded(cfg, s, symbol, times), symbol, 1) == Funded(cfg, s, symbol, times + 1)
    ensures Funded(cfg, s, symbol, 0) == s
    ensures !cfg.trading.includeFunding ==> Funded(cfg, s, symbol, times) == s
  {
    if cfg.trading.includeFunding && symbol in s.memory {
      PaidOnceMore(s.memory[symbol], RateOf(s.mk.rates, symbol), times);
      assert s.memory[symbol := s.memory[symbol]] == s.memory;
      assert Funded(cfg, Funded(cfg, s, symbol, times), symbol, 1).memory == Funded(cfg, s, symbol, times + 1).memory;
    }
  }

  lemma FundingIs(cfg: PaperConfig, s: Paper, symbol: string, ts: int)
    ensures var s1 := Funded(cfg, s, symbol, |Funding.Due(NextOf(s.mk.clocks, symbol, ts), ts)|);
            FundingTurn(cfg, s, symbol, ts) == s1.(mk := Clocked(s1.mk, symbol, ts)) && s1.mk == s.mk
  {}

  /** How the write for a symbol ends, if not by a commit. */
  function WriteOf(ends: map<string, Write>, symbol: string): Write {
    if symbol in ends then ends[symbol] else Commits
  }

  /** The two loops of finalize. */
  function TakeAll(cfg: PaperConfig, s: Paper, order: seq<string>, ends: map<string, Write>): Paper {
    if |order| == 0 then s
    else
      var x := order[|order| - 1];
      Settle(TakeCandle(cfg, TakeAll(cfg, s, order[..|order| - 1], ends), x, WriteOf(ends, x)))
  }

  function EndOne(cfg: PaperConfig, s: Paper, x: string, ts: int, given: map<string, real>, w: Write): Paper {
    if x !in s.memory then s
    else Settle(CloseCommit(cfg, s, x, ts, LastPrice(s.memory[x], given, s.mk.prices), EndOfRun, w))
  }

  function EndAll(
    cfg: PaperConfig, s: Paper, held: seq<string>, ts: int, given: map<string, real>, ends: map<string, Write>): Paper
  {
    if |held| == 0 then s
    else
      var x := held[|held| - 1];
      EndOne(cfg, EndAll(cfg, s, held[..|held| - 1], ts, given, ends), x, ts, given, WriteOf(ends, x))
  }

  /** The dictionaries hold the market data of the model. */
  ghost predicate SameMarket(
    cap: nat, candles: map<string, seq<Candle>>, active: map<string, Candle>, next: map<string, int>,
    prices: map<string, real>, monos: map<string, int>, rates: map<string, real>, mk: Market)
  {
    && SameCandles(cap, candles, active, mk.aggs) && SameClocks(next, mk.clocks)
    && prices == mk.prices && monos == mk.monos && rates == mk.rates
  }

  /** A close committed and taken over by memory. */
  function Ended(s: Paper, t: Trade): Paper {
    var rows := CloseRow(s.db, t);
    s.(db := rows, disk := rows, memory := s.memory - {t.pos.symbol}, trades := s.trades + [t],
       realized := s.realized + t.pnlNet)
  }

  lemma CloseIs(cfg: PaperConfig, s: Paper, symbol: string, ts: int, price: real, reason: ExitReason, w: Write)
    requires s.hand.Free? && symbol in s.memory
    ensures var t := MakeTrade(cfg.trading, s.memory[symbol], ts, price, reason);
            Settle(CloseCommit(cfg, s, symbol, ts, price, reason, w)) ==
              if w.Commits? then Ended(s, t) else Written(s, CloseRow(s.db, t), w)
  {
  }

  ghost function DecisionOf(
    cfg: PaperConfig, s: Paper, symbol: string, dir: Direction, ts: int, price: real, mono: int): Plan
  {
    var barred := Barred(cfg, s, symbol, price, mono);
    if barred.Some? then No(barred.value) else PlanOf(cfg, s, symbol, dir, ts, price)
  }

  lemma EntryIs(
    cfg: PaperConfig, s: Paper, symbol: string, dir: Direction, ts: int, price: real, mono: int, w: Write)
    requires s.hand.Free?
    ensures var plan := DecisionOf(cfg, s, symbol, dir, ts, price, mono);
            && (plan.Go? ==> plan.p.symbol == symbol)
            && Settle(EntryCommit(cfg, s, symbol, dir, ts, price, mono, w)) ==
                 if plan.No? then s.(refused := Some(plan.why)) else Settle(OpenCommit(s, plan.p, w))
  {
  }

  class PaperPositionManager {
    const cfg: PaperConfig
    const conn: Database
    const cap: nat
    var positions: Memory
    var candles: map<string, seq<Candle>>
    var active: map<string, Candle>
    var lastPrice: map<string, real>
    var lastPriceMono: map<string, int>
    var lastFundingRate: map<string, real>
    var nextFunding: map<string, int>
    var realizedEquity: real
    var closedTrades: seq<Trade>
    var refused: Option<Refused>
    ghost var state: Paper

    /** Between two calls nothing is in hand. */
    ghost predicate Valid()
      reads this, conn
    {
      && (cfg.trading.atrPeriod > 0 ==> cap >= cfg.trading.atrPeriod + 1)
      && state.hand.Free? && positions == state.memory && Keyed(positions)
      && conn.rows == state.db && conn.disk == state.disk
      && SameMarket(cap, candles, active, nextFunding, lastPrice, lastPriceMono, lastFundingRate, state.mk)
      && realizedEquity == state.realized && closedTrades == state.trades && refused == state.refused
    }

    /** A new process over a connection just opened; the database may hold rows of earlier ones. */
    constructor (cfg: PaperConfig, conn: Database)
      requires conn.rows == conn.disk
      ensures Valid() && this.cfg == cfg && this.conn == conn
      ensures state == Boot(cfg, conn.disk)
    {
      this.cfg, this.conn := cfg, conn;
      cap := if cfg.trading.atrPeriod * 4 > cfg.minCandles then cfg.trading.atrPeriod * 4 else cfg.minCandles;
      positions, candles, active, lastPrice, lastPriceMono := map[], map[], map[], map[], map[];
      lastFundingRate, nextFunding := map[], map[];
      realizedEquity, closedTrades, refused := cfg.trading.initialEquity, [], None;
      state := Boot(cfg, conn.disk);
    }

    // -------------------------------------------------------------- startup

    /** listing: the rows that parse, in the order in which the query visits them. */
    method OnStartup(listing: seq<Id>, readOk: bool) returns (loaded: nat)
      requires Valid() && positions == map[]
      requires forall i :: 0 <= i < |listing| ==>
                 listing[i] in conn.rows && conn.rows[listing[i]].pos.symbol == listing[i].symbol
      modifies this`positions, this`state
      ensures Valid() && state == old(state).(memory := if readOk then Load(conn.rows, listing) else map[])
      ensures loaded == if readOk then CountOpen(conn.rows, listing) else 0
    {
      loaded := 0;
      if !readOk { return; }
      for i := 0 to |listing|
        invariant state == old(state) && positions == Load(conn.rows, listing[..i]) && Keyed(positions)
        invariant loaded == CountOpen(conn.rows, listing[..i])
      {
        assert listing[..i + 1][..i] == listing[..i];
        var row := conn.rows[listing[i]];
        if row.exit.None? {
          positions := positions[row.pos.symbol := row.pos];
          loaded := loaded + 1;
        }
      }
      assert listing[..|listing|] == listing;
      state := state.(memory := positions);
    }

    // -------------------------------------------------------------- equity

    method Equity() returns (equity: real)
      requires Valid()
      ensures equity == EquityOf(state)
    {
      equity := realizedEquity;
      var rest := positions;
      while rest != map[]
        invariant equity + SumOpen(rest, lastPrice) == EquityOf(state)
        decreases |rest|
      {
        assert rest.Keys != {};
        var x := Pick(rest.Keys);
        SumSplits(rest, lastPrice, x);
        var marked := MarkedProfit(rest[x], lastPrice);
        equity := equity + marked;
        rest := rest - {x};
      }
    }

    // -------------------------------------------------------------- exits

    /** The row is closed first; only then memory follows. */
    method ClosePosition(symbol: string, ts: int, exitPrice: real, reason: ExitReason, w: Write)
      requires Valid()
      modifies this`positions, this`closedTrades, this`realizedEquity, this`state, conn
      ensures Valid() && state == Settle(CloseCommit(cfg, old(state), symbol, ts, exitPrice, reason, w))
      ensures positions == if w.Commits? then old(positions) - {symbol} else old(positions)
    {
      if symbol !in positions { return; }
      var trade, exitFee := TradeOf(positions[symbol], ts, exitPrice, reason);
      CloseIs(cfg, state, symbol, ts, exitPrice, reason, w);
      var done := conn.WriteClose(trade, exitFee, w);
      if !done {
        state := Written(state, CloseRow(state.db, trade), w);
        return;
      }
      state := Ended(state, trade);
      positions := positions - {symbol};
      closedTrades := closedTrades + [trade];
      realizedEquity := realizedEquity + trade.pnlNet;
    }

    method TradeOf(pos: Position, ts: int, exitPrice: real, reason: ExitReason) returns (trade: Trade, exitFee: real)
      ensures trade == MakeTrade(cfg.trading, pos, ts, exitPrice, reason)
      ensures exitFee == ExitFee(exitPrice, pos.qty, cfg.trading.feeTaker, cfg.trading.feeMaker, reason)
    {
      var gross := PnlGross(pos.entryPrice, exitPrice, pos.qty, pos.dir);
      exitFee := ExitFee(exitPrice, pos.qty, cfg.trading.feeTaker, cfg.trading.feeMaker, reason);
      var fees := pos.entryFee + exitFee;
      var net := gross - fees - pos.fundingPaid;
      var r := RMultiple(pos.entryPrice, exitPrice, pos.slPrice, pos.dir);
      trade := Trade(pos, ts, exitPrice, reason, fees, gross, net, r);
    }

    method CheckExitsOnCandle(c: Candle, symbol: string, w: Write)
      requires Valid()
      modifies this`positions, this`closedTrades, this`realizedEquity, this`state, conn
      ensures Valid() && state == Settle(ExitCommit(cfg, old(state), symbol, c, w))
    {
      if symbol !in positions { return; }
      var pos := positions[symbol];
      if c.sec <= pos.entryBucket { return; }
      var hitSl, hitTp;
      if pos.dir == Long {
        hitSl, hitTp := c.low <= pos.slPrice, c.high >= pos.tpPrice;
      } else {
        hitSl, hitTp := c.high >= pos.slPrice, c.low <= pos.tpPrice;
      }
      if hitSl {
        ClosePosition(symbol, c.sec * 1000, pos.slPrice, StopLoss, w);
      } else if hitTp {
        ClosePosition(symbol, c.sec * 1000, pos.tpPrice, TakeProfit, w);
      }
    }

    /** Pops the active candle into the bounded history. */
    method PopActive(symbol: string) returns (c: Option<Candle>)
      requires Valid()
      modifies this`active, this`candles, this`state
      ensures Valid() && c == AggOf(old(state).mk.aggs, symbol).active && symbol !in active
      ensures state == if c.None? then old(state) else old(state).(mk := Popped(old(state).mk, symbol))
    {
      if symbol !in active {
        assert AggOf(state.mk.aggs, symbol).active == ActiveOf(active, symbol);
        return None;
      }
      c := Some(active[symbol]);
      AfterPop(cap, candles, active, state.mk, symbol);
      ghost var mk' := Popped(state.mk, symbol);
      var kept := if symbol in candles then candles[symbol] else [];
      candles := candles[symbol := Tail(kept + [active[symbol]], cap)];
      active := active - {symbol};
      state := state.(mk := mk');
    }

    method FinalizeActive(symbol: string, w: Write)
      requires Valid()
      modifies this`positions, this`closedTrades, this`realizedEquity, this`active, this`candles, this`state, conn
      ensures Valid() && symbol !in active && state == Settle(TakeCandle(cfg, old(state), symbol, w))
    {
      TakeIs(cfg, state, symbol, w);
      var c := PopActive(symbol);
      if c.Some? {
        CheckExitsOnCandle(c.value, symbol, w);
      }
    }

    // -------------------------------------------------------------- feeds

    method OnWsTick(symbol: string, price: real, mono: int)
      requires Valid()
      modifies this`lastPrice, this`lastPriceMono, this`state
      ensures Valid() && state == PaperStep(cfg, old(state), PriceTick(symbol, price, mono))
    {
      if price <= 0.0 { return; }
      lastPrice := lastPrice[symbol := price];
      lastPriceMono := lastPriceMono[symbol := mono];
      state := state.(mk := state.mk.(prices := lastPrice, monos := lastPriceMono));
    }

    method OnTicker(symbol: string, rate: real)
      requires Valid()
      modifies this`lastFundingRate, this`state
      ensures Valid() && state == PaperStep(cfg, old(state), FundingRate(symbol, rate))
    {
      lastFundingRate := lastFundingRate[symbol := rate];
      state := state.(mk := state.mk.(rates := lastFundingRate));
    }

    method OnBar(symbol: string, ev: Bar, w: Write)
      requires Valid() && ev.close > 0.0
      modifies this`positions, this`closedTrades, this`realizedEquity, this`active, this`candles, this`state, conn
      ensures Valid() && state == Settle(BarCommit(cfg, old(state), symbol, ev, w))
    {
      BarIs(cfg, state, symbol, ev, w);
      assert AggOf(state.mk.aggs, symbol).active == ActiveOf(active, symbol);
      if symbol in active && Bucket(ev.sec) > active[symbol].sec {
        FinalizeActive(symbol, w);
      }
      FeedActive(symbol, ev);
    }

    /** The active candle after a bar: opened by it, merged with it, or as it was. */
    method NextCandle(symbol: string, ev: Bar) returns (c: Candle)
      requires Valid() && (symbol in active ==> Bucket(ev.sec) <= active[symbol].sec)
      ensures Feed(AggOf(state.mk.aggs, symbol), ev) == Agg(Some(c), LogOf(state.mk.aggs, symbol))
    {
      assert AggOf(state.mk.aggs, symbol).active == ActiveOf(active, symbol);
      if symbol !in active { return NewCandle(ev); }
      c := active[symbol];
      if Bucket(ev.sec) == c.sec { c := MergeBar(c, ev); }
    }

    /** Opens a candle, merges into the active one, or drops the bar. */
    method FeedActive(symbol: string, ev: Bar)
      requires Valid() && (symbol in active ==> Bucket(ev.sec) <= active[symbol].sec)
      modifies this`active, this`state
      ensures Valid() && state == old(state).(mk := Fed(old(state).mk, symbol, ev))
    {
      var c := NextCandle(symbol, ev);
      AfterFeed(cap, candles, active, state.mk.aggs, symbol, Agg(Some(c), LogOf(state.mk.aggs, symbol)));
      active := active[symbol := c];
      state := state.(mk := Fed(state.mk, symbol, ev));
    }

    method ApplyFunding(symbol: string)
      requires Valid()
      modifies this`positions, this`state
      ensures Valid() && state == Funded(cfg, old(state), symbol, 1)
    {
      if !cfg.trading.includeFunding || symbol !in positions { return; }
      var pos := positions[symbol];
      var rate := if symbol in lastFundingRate then lastFundingRate[symbol] else 0.0;
      var delta := FundingDelta(rate, pos.entryPrice * pos.qty, pos.dir);
      assert pos.symbol == symbol && Paid(pos, rate, 1).fundingPaid == pos.fundingPaid + delta;
      positions := positions[symbol := pos.(fundingPaid := pos.fundingPaid + delta)];
      state := Funded(cfg, state, symbol, 1);
    }

    method FundUntil(symbol: string, from: int, ts: int) returns (next: int)
      requires Valid() && from % Funding.PERIOD == 0
      modifies this`positions, this`state
      ensures Valid() && next == Funding.NextAfter(from, ts) && next % Funding.PERIOD == 0
      ensures state == Funded(cfg, old(state), symbol, |Funding.Due(from, ts)|)
    {
      next := from;
      ghost var s0, paid: nat := state, 0;
      FundedOnceMore(cfg, s0, symbol, 0);
      while ts >= next
        invariant Valid() && next % Funding.PERIOD == 0
        invariant Funding.NextAfter(next, ts) == Funding.NextAfter(from, ts)
        invariant |Funding.Due(next, ts)| + paid == |Funding.Due(from, ts)|
        invariant state == Funded(cfg, s0, symbol, paid)
        decreases ts - next
      {
        FundedOnceMore(cfg, s0, symbol, paid);
        ApplyFunding(symbol);
        paid := paid + 1;
        Funding.OneTurn(next, ts);
        next := Funding.NextFundingTs(next + 1);
      }
    }

    method NextDue(symbol: string, ts: int) returns (next: int)
      requires Valid()
      ensures next == NextOf(state.mk.clocks, symbol, ts) && next % Funding.PERIOD == 0
    {
      if symbol in nextFunding { return nextFunding[symbol]; }
      next := Funding.NextFundingTs(ts);
    }

    method SetClock(symbol: string, next: int, ts: int)
      requires Valid() && next % Funding.PERIOD == 0
      requires next == Funding.NextAfter(NextOf(state.mk.clocks, symbol, ts), ts)
      modifies this`nextFunding, this`state
      ensures Valid() && state == old(state).(mk := Clocked(old(state).mk, symbol, ts))
    {
      AfterTick(nextFunding, state.mk.clocks, symbol, ts);
      nextFunding := nextFunding[symbol := next];
      state := state.(mk := Clocked(state.mk, symbol, ts));
    }

    method OnFunding(symbol: string, ts: int)
      requires Valid()
      modifies this`positions, this`nextFunding, this`state
      ensures Valid() && state == FundingTurn(cfg, old(state), symbol, ts)
    {
      FundingIs(cfg, state, symbol, ts);
      var next := NextDue(symbol, ts);
      var last := FundUntil(symbol, next, ts);
      SetClock(symbol, last, ts);
    }

    method OnPrice(symbol: string, close: real, mono: int)
      requires Valid()
      modifies this`lastPrice, this`lastPriceMono, this`state
      ensures Valid() && state == old(state).(mk := Priced(old(state).mk, symbol, close, mono))
    {
      lastPrice := lastPrice[symbol := close];
      if symbol !in lastPriceMono {
        lastPriceMono := lastPriceMono[symbol := mono];
      }
      state := state.(mk := Priced(state.mk, symbol, close, mono));
    }

    /** A one-second bar: candle and exit with its write, then memory, then funding and last price. */
    method OnOhlcv(symbol: string, ev: Bar, ts: int, mono: int, w: Write)
      requires Valid()
      modifies this, conn
      ensures Valid()
      ensures state == ClockTurn(cfg, Settle(BarCommit(cfg, old(state), symbol, ev, w)), symbol, ts, ev.close, mono)
    {
      if ev.close <= 0.0 { return; }
      OnBar(symbol, ev, w);
      OnFunding(symbol, ts);
      OnPrice(symbol, ev.close, mono);
    }

    // -------------------------------------------------------------- entries

    method CheckLimits(symbol: string, price: real, mono: int) returns (why: Option<Refused>)
      requires Valid()
      ensures why == Barred(cfg, state, symbol, price, mono)
    {
      if symbol !in lastPriceMono { return Some(StalePrice); }
      if mono - lastPriceMono[symbol] > cfg.staleMs { return Some(StalePrice); }
      if price <= 0.0 { return Some(InvalidPrice); }
      if symbol in positions { return Some(SymbolFull); }
      if |positions| >= cfg.trading.maxGlobal { return Some(GlobalLimit); }
      if cfg.trading.maxPerSymbol < 1 { return Some(SymbolFull); }
      return None;
    }

    method PlanFor(symbol: string, dir: Direction, ts: int, price: real) returns (plan: Plan)
      requires Valid()
      ensures plan == PlanOf(cfg, state, symbol, dir, ts, price)
    {
      var kept := if symbol in candles then candles[symbol] else [];
      var atr := ComputeAtr(kept, cfg.trading.atrPeriod);
      assert KeptOf(candles, symbol) == Tail(LogOf(state.mk.aggs, symbol), cap);
      AtrOfTail(LogOf(state.mk.aggs, symbol), cap, cfg.trading.atrPeriod);
      var equity := Equity();
      plan := PlanEntry(cfg.trading, equity, atr, symbol, dir, ts, price);
    }

    /** The row is committed first; only then memory follows. */
    method OpenPosition(p: Position, w: Write) returns (done: bool)
      requires Valid()
      modifies this`positions, this`refused, this`state, conn
      ensures Valid() && done == w.Commits? && state == Settle(OpenCommit(old(state), p, w))
      ensures positions == if done then old(positions)[p.symbol := p] else old(positions)
    {
      done := conn.WriteOpen(p, w);
      state := Written(state, InsertRow(state.db, p), w);
      if !done {
        refused := Some(DbWriteFailed);
        state := state.(refused := refused);
        return;
      }
      refused := None;
      positions := positions[p.symbol := p];
      state := Settle(state.(refused := None, hand := Opening(p)));
    }

    method OnEntry(symbol: string, dir: Direction, ts: int, price: real, mono: int, w: Write) returns (taken: bool)
      requires Valid()
      modifies this`positions, this`refused, this`state, conn
      ensures Valid() && state == Settle(EntryCommit(cfg, old(state), symbol, dir, ts, price, mono, w))
      ensures taken ==> symbol in positions && symbol !in old(positions)
    {
      EntryIs(cfg, state, symbol, dir, ts, price, mono, w);
      var plan := Decide(symbol, dir, ts, price, mono);
      if plan.No? {
        Refuse(plan.why);
        return false;
      }
      taken := OpenPosition(plan.p, w);
    }

    method Decide(symbol: string, dir: Direction, ts: int, price: real, mono: int) returns (plan: Plan)
      requires Valid()
      ensures plan == DecisionOf(cfg, state, symbol, dir, ts, price, mono)
      ensures plan.Go? ==> symbol !in positions
    {
      var why := CheckLimits(symbol, price, mono);
      if why.Some? { return No(why.value); }
      plan := PlanFor(symbol, dir, ts, price);
    }

    method Refuse(why: Refused)
      requires Valid()
      modifies this`refused, this`state
      ensures Valid() && state == old(state).(refused := Some(why))
    {
      refused := Some(why);
      state := state.(refused := Some(why));
    }

    /** Another commit on the connection, of an audit row or of anybody else. */
    method AuditCommitted()
      requires Valid()
      modifies this`state, conn
      ensures Valid() && state == PaperStep(cfg, old(state), AuditCommits)
    {
      var done := conn.Execute(conn.rows, Commits);
      state := state.(disk := state.db);
    }

    // -------------------------------------------------------------- finalize

    /** order: the symbols with an active candle. */
    method FinalizeCandles(order: seq<string>, ends: map<string, Write>)
      requires Valid()
      modifies this, conn
      ensures Valid() && state == TakeAll(cfg, old(state), order, ends)
    {
      ghost var s0 := state;
      for i := 0 to |order|
        invariant Valid() && state == TakeAll(cfg, s0, order[..i], ends)
      {
        assert order[..i + 1][..i] == order[..i];
        FinalizeActive(order[i], WriteOf(ends, order[i]));
      }
      assert order[..|order|] == order;
    }

    method EndPosition(x: string, lastTs: int, lastPrices: map<string, real>, w: Write)
      requires Valid()
      modifies this, conn
      ensures Valid() && state == EndOne(cfg, old(state), x, lastTs, lastPrices, w)
      ensures positions == if w.Commits? then old(positions) - {x} else old(positions)
    {
      if x !in positions { return; }
      var px := positions[x].entryPrice;
      if x in lastPrices && lastPrices[x] > 0.0 {
        px := lastPrices[x];
      } else if x in lastPrice {
        px := lastPrice[x];
      }
      ClosePosition(x, lastTs, px, EndOfRun, w);
    }

    /** ends1, ends2: how the writes of the first and of the second loop end; held: the positions as the
        second loop lists them. Every position whose last write commits is closed. */
    method Finalize(
      order: seq<string>, lastTs: int, lastPrices: map<string, real>,
      ends1: map<string, Write>, ends2: map<string, Write>)
      returns (held: seq<string>)
      requires Valid()
      modifies this, conn
      ensures Valid()
      ensures state == EndAll(cfg, TakeAll(cfg, old(state), order, ends1), held, lastTs, lastPrices, ends2)
      ensures forall x :: x in positions ==> !WriteOf(ends2, x).Commits?
    {
      FinalizeCandles(order, ends1);
      ghost var s1 := state;
      held := [];
      var rest := positions.Keys;
      while rest != {}
        invariant Valid() && state == EndAll(cfg, s1, held, lastTs, lastPrices, ends2)
        invariant forall x :: x in positions ==> x in rest || !WriteOf(ends2, x).Commits?
        decreases |rest|
      {
        var x := Pick(rest);
        EndPosition(x, lastTs, lastPrices, WriteOf(ends2, x));
        assert (held + [x])[..|held|] == held;
        held := held + [x];
        rest := rest - {x};
      }
    }
  }
}
