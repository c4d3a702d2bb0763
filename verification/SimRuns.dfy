/** What every run of the position simulator keeps: exits at the first touch, risk and reward of every
  trade, and the ledger.
 */
module SimRuns {
  import opened Basics
  import opened Candles
  import opened PaperMath
  import opened SimSpec
  import opened TouchRules
  import Funding

  // ---------------------------------------------------------------- one position

  /** The position was sized so that its stop loses equity * riskPct. */
  ghost predicate Sized(cfg: Config, p: Position, equity: real) {
    var d := if p.dir.Long? then p.entryPrice - p.slPrice else p.slPrice - p.entryPrice;
    && d > 0.0 && p.qty > 0.0
    && p.qty == equity * cfg.riskPct / d
    && p.tpPrice == (if p.dir.Long? then p.entryPrice + cfg.tpR * d else p.entryPrice - cfg.tpR * d)
    && p.entryFee == p.entryPrice * p.qty * cfg.feeTaker
    && p.entryBucket == Bucket(p.entryTs / 1000)
  }

  ghost predicate OpenOk(cfg: Config, o: Open, log: seq<Candle>) {
    Sized(cfg, o.pos, o.equity) && Untouched(o.pos, log, o.bornAt, |log|)
  }

  /** A closed trade: untouched before its exit; a stop or target exit is on the candle at closedAt,
      at its level and with its time. */
  ghost predicate ClosedOk(cfg: Config, c: Closed, log: seq<Candle>) {
    var t := c.trade;
    && Sized(cfg, t.pos, c.equity)
    && t == MakeTrade(cfg, t.pos, t.exitTs, t.exitPrice, t.reason)
    && Untouched(t.pos, log, c.bornAt, c.closedAt)
    && (!t.reason.EndOfRun? ==> c.closedAt < |log| && LeavesOn(t, log[c.closedAt]))
  }

  lemma LogGrowsOpen(cfg: Config, o: Open, log: seq<Candle>, c: Candle)
    requires OpenOk(cfg, o, log) && !Touches(o.pos, c)
    ensures OpenOk(cfg, o, log + [c])
  {}

  lemma LogGrowsClosed(cfg: Config, t: Closed, log: seq<Candle>, c: Candle)
    requires ClosedOk(cfg, t, log)
    ensures ClosedOk(cfg, t, log + [c])
  {}

  lemma ExitIsOk(cfg: Config, o: Open, log: seq<Candle>, c: Candle)
    requires OpenOk(cfg, o, log) && ExitOn(o.pos, c).Some?
    ensures var reason := ExitOn(o.pos, c).value;
            var t := MakeTrade(cfg, o.pos, c.sec * 1000, LevelOf(o.pos, reason), reason);
            ClosedOk(cfg, Closed(t, o.equity, o.bornAt, |log|), log + [c])
  {
    ExitsExactlyOnTouch(cfg, o.pos, c);
  }

  lemma FundingKeepsOpen(cfg: Config, o: Open, rate: real, times: int, log: seq<Candle>)
    requires OpenOk(cfg, o, log)
    ensures OpenOk(cfg, o.(pos := Paid(o.pos, rate, times)), log)
  {
    forall k | o.bornAt <= k < |log| ensures !Touches(Paid(o.pos, rate, times), log[k]) {
      PaidTouchesAlike(o.pos, rate, times, log[k]);
    }
  }

  lemma EntryIsOk(
    cfg: Config, equity: real, atr: Option<real>, symbol: string, dir: Direction, ts: int, close: real,
    log: seq<Candle>)
    requires var p := NewPosition(cfg, equity, atr, symbol, dir, ts, close); p.Some?
    ensures var p := NewPosition(cfg, equity, atr, symbol, dir, ts, close);
            OpenOk(cfg, Open(p.value, equity, |log|), log)
  {}

  // ---------------------------------------------------------------- the book

  ghost predicate Distinct(open: seq<Open>) {
    forall i, j :: 0 <= i < j < |open| ==> open[i].pos.symbol != open[j].pos.symbol
  }

  ghost predicate OpensOk(cfg: Config, open: seq<Open>, aggs: map<string, Agg>) {
    forall i :: 0 <= i < |open| ==> OpenOk(cfg, open[i], LogOf(aggs, open[i].pos.symbol))
  }

  ghost predicate TradesOk(cfg: Config, trades: seq<Closed>, aggs: map<string, Agg>) {
    forall k :: 0 <= k < |trades| ==> ClosedOk(cfg, trades[k], LogOf(aggs, trades[k].trade.pos.symbol))
  }

  ghost predicate BookOk(cfg: Config, b: Book, aggs: map<string, Agg>) {
    Distinct(b.open) && OpensOk(cfg, b.open, aggs) && TradesOk(cfg, b.trades, aggs)
  }

  /** The log of one symbol grows by a candle, and the exits on that candle are taken. */
  lemma ExitsKeepBook(cfg: Config, b: Book, aggs: map<string, Agg>, aggs': map<string, Agg>, symbol: string, c: Candle)
    requires BookOk(cfg, b, aggs)
    requires LogOf(aggs', symbol) == LogOf(aggs, symbol) + [c]
    requires forall other :: other != symbol ==> LogOf(aggs', other) == LogOf(aggs, other)
    ensures BookOk(cfg, CheckExits(cfg, b, symbol, c, |LogOf(aggs, symbol)|), aggs')
  {
    var log := LogOf(aggs, symbol);
    var b' := CheckExits(cfg, b, symbol, c, |log|);
    OldTradesStayOk(cfg, b.trades, aggs, aggs', symbol, c);
    var i := IndexOf(b.open, symbol);
    if i == |b.open| || ExitOn(b.open[i].pos, c).None? {
      forall j | 0 <= j < |b.open| ensures OpenOk(cfg, b.open[j], LogOf(aggs', b.open[j].pos.symbol)) {
        if b.open[j].pos.symbol == symbol {
          OnlyOne(b.open, symbol);
          ExitsExactlyOnTouch(cfg, b.open[j].pos, c);
          LogGrowsOpen(cfg, b.open[j], log, c);
        }
      }
    } else {
      ExitIsOk(cfg, b.open[i], log, c);
      WithoutKeeps(cfg, b.open, aggs, aggs', symbol);
    }
  }

  lemma OnlyOne(open: seq<Open>, symbol: string)
    requires Distinct(open)
    ensures forall j :: 0 <= j < |open| && open[j].pos.symbol == symbol ==> j == IndexOf(open, symbol)
  {}

  lemma OldTradesStayOk(
    cfg: Config, trades: seq<Closed>, aggs: map<string, Agg>, aggs': map<string, Agg>, symbol: string, c: Candle)
    requires TradesOk(cfg, trades, aggs)
    requires LogOf(aggs', symbol) == LogOf(aggs, symbol) + [c]
    requires forall other :: other != symbol ==> LogOf(aggs', other) == LogOf(aggs, other)
    ensures TradesOk(cfg, trades, aggs')
  {
    forall k | 0 <= k < |trades| ensures ClosedOk(cfg, trades[k], LogOf(aggs', trades[k].trade.pos.symbol)) {
      if trades[k].trade.pos.symbol == symbol { LogGrowsClosed(cfg, trades[k], LogOf(aggs, symbol), c); }
    }
  }

  lemma WithoutKeeps(cfg: Config, open: seq<Open>, aggs: map<string, Agg>, aggs': map<string, Agg>, symbol: string)
    requires Distinct(open) && OpensOk(cfg, open, aggs) && IndexOf(open, symbol) < |open|
    requires forall other :: other != symbol ==> LogOf(aggs', other) == LogOf(aggs, other)
    ensures Distinct(Without(open, IndexOf(open, symbol))) && OpensOk(cfg, Without(open, IndexOf(open, symbol)), aggs')
  {
    var i := IndexOf(open, symbol);
    var rest := Without(open, i);
    OnlyOne(open, symbol);
    WithoutKeepsDistinct(open, i);
    forall j | 0 <= j < |rest| ensures OpenOk(cfg, rest[j], LogOf(aggs', rest[j].pos.symbol)) {
      assert rest[j] == open[if j < i then j else j + 1];
    }
  }

  lemma WithoutKeepsDistinct(open: seq<Open>, i: nat)
    requires Distinct(open) && i < |open|
    ensures Distinct(Without(open, i))
  {
    var rest := Without(open, i);
    forall j, k | 0 <= j < k < |rest| ensures rest[j].pos.symbol != rest[k].pos.symbol {
      assert rest[j] == open[if j < i then j else j + 1] && rest[k] == open[if k < i then k else k + 1];
    }
  }

  lemma SameLogsKeepBook(cfg: Config, b: Book, aggs: map<string, Agg>, aggs': map<string, Agg>)
    requires BookOk(cfg, b, aggs) && forall symbol :: LogOf(aggs', symbol) == LogOf(aggs, symbol)
    ensures BookOk(cfg, b, aggs')
  {}

  lemma FundingKeepsBook(cfg: Config, b: Book, aggs: map<string, Agg>, symbol: string, rate: real, times: int)
    requires BookOk(cfg, b, aggs)
    ensures BookOk(cfg, PayFunding(b, symbol, rate, times), aggs)
  {
    var i := IndexOf(b.open, symbol);
    if i < |b.open| {
      FundingKeepsOpen(cfg, b.open[i], rate, times, LogOf(aggs, symbol));
    }
  }

  lemma EntryKeepsBook(cfg: Config, s: State, symbol: string, dir: Direction, ts: int, close: real)
    requires BookOk(cfg, s.book, s.aggs)
    ensures BookOk(cfg, OnEntry(cfg, s, symbol, dir, ts, close).book, s.aggs)
  {
    var log, equity := LogOf(s.aggs, symbol), Equity(s.book, s.prices);
    var p := NewPosition(cfg, equity, Atr(log, cfg.atrPeriod), symbol, dir, ts, close);
    if Refusal(cfg, s.book, symbol).None? && p.Some? {
      EntryIsOk(cfg, equity, Atr(log, cfg.atrPeriod), symbol, dir, ts, close, log);
    }
  }

  // ---------------------------------------------------------------- the parts of a step

  lemma FinalizeActiveKeeps(cfg: Config, s: State, symbol: string)
    requires BookOk(cfg, s.book, s.aggs)
    ensures var s' := FinalizeActive(cfg, s, symbol); BookOk(cfg, s'.book, s'.aggs)
  {
    var a := AggOf(s.aggs, symbol);
    if a.active.Some? {
      ExitsKeepBook(cfg, s.book, s.aggs, FinalizeActive(cfg, s, symbol).aggs, symbol, a.active.value);
    }
  }

  lemma CandlePartKeeps(cfg: Config, s: State, symbol: string, bar: Bar)
    requires BookOk(cfg, s.book, s.aggs)
    ensures var s' := CandlePart(cfg, s, symbol, bar); BookOk(cfg, s'.book, s'.aggs)
  {
    var a := AggOf(s.aggs, symbol);
    FinalizeActiveKeeps(cfg, s, symbol);
    var s1 := if a.active.Some? && Bucket(bar.sec) > a.active.value.sec then FinalizeActive(cfg, s, symbol) else s;
    SameLogsKeepBook(cfg, s1.book, s1.aggs, CandlePart(cfg, s, symbol, bar).aggs);
  }

  lemma OhlcvKeeps(cfg: Config, s: State, symbol: string, bar: Bar, ts: int)
    requires BookOk(cfg, s.book, s.aggs)
    ensures var s' := OnOhlcv(cfg, s, symbol, bar, ts); BookOk(cfg, s'.book, s'.aggs)
  {
    CandlePartKeeps(cfg, s, symbol, bar);
    FundingPartKeeps(cfg, CandlePart(cfg, s, symbol, bar), symbol, ts);
  }

  lemma FundingPartKeeps(cfg: Config, s: State, symbol: string, ts: int)
    requires BookOk(cfg, s.book, s.aggs)
    ensures var s' := FundingPart(cfg, s, symbol, ts); BookOk(cfg, s'.book, s'.aggs)
  {
    var c := ClockOf(s.clocks, symbol);
    FundingKeepsBook(cfg, s.book, s.aggs, symbol, RateOf(s.rates, symbol), Fired(Funding.Tick(c, ts)) - Fired(c));
  }

  lemma {:induction false} FinalizeCandlesKeeps(cfg: Config, s: State, order: seq<string>)
    requires BookOk(cfg, s.book, s.aggs)
    ensures var s' := FinalizeCandles(cfg, s, order); BookOk(cfg, s'.book, s'.aggs)
  {
    if |order| > 0 {
      FinalizeCandlesKeeps(cfg, s, order[..|order| - 1]);
      FinalizeActiveKeeps(cfg, FinalizeCandles(cfg, s, order[..|order| - 1]), order[|order| - 1]);
    }
  }

  lemma CloseOldestKeeps(cfg: Config, s: State, ts: int, given: map<string, real>)
    requires BookOk(cfg, s.book, s.aggs) && |s.book.open| > 0
    ensures var s' := CloseOldest(cfg, s, ts, given); BookOk(cfg, s'.book, s'.aggs)
  {
    var o := s.book.open[0];
    assert OpenOk(cfg, o, LogOf(s.aggs, o.pos.symbol));
    WithoutKeeps(cfg, s.book.open, s.aggs, s.aggs, o.pos.symbol);
  }

  lemma {:induction false} CloseAllKeeps(cfg: Config, s: State, ts: int, given: map<string, real>)
    requires BookOk(cfg, s.book, s.aggs)
    ensures var s' := CloseAll(cfg, s, ts, given); BookOk(cfg, s'.book, s'.aggs)
    decreases |s.book.open|
  {
    if |s.book.open| > 0 {
      CloseOldestKeeps(cfg, s, ts, given);
      CloseAllKeeps(cfg, CloseOldest(cfg, s, ts, given), ts, given);
    }
  }

  lemma StepKeepsBook(cfg: Config, s: State, e: Event)
    requires BookOk(cfg, s.book, s.aggs)
    ensures var s' := Step(cfg, s, e); BookOk(cfg, s'.book, s'.aggs)
  {
    match e
    case Ohlcv(symbol, bar, ts) => OhlcvKeeps(cfg, s, symbol, bar, ts);
    case Ticker(_, _) =>
    case Entry(symbol, dir, ts, close) => EntryKeepsBook(cfg, s, symbol, dir, ts, close);
    case Finalize(order, ts, given) =>
      FinalizeCandlesKeeps(cfg, s, order);
      CloseAllKeeps(cfg, FinalizeCandles(cfg, s, order), ts, given);
  }

  /** Over every run an open position is untouched by every candle finalized after its entry with a
      second above its entry bucket; and every trade is a correct exit. */
  lemma {:induction false} RunKeepsBook(cfg: Config, es: seq<Event>)
    ensures var s := Run(cfg, es); BookOk(cfg, s.book, s.aggs)
  {
    if |es| > 0 {
      RunKeepsBook(cfg, es[..|es| - 1]);
      StepKeepsBook(cfg, Run(cfg, es[..|es| - 1]), es[|es| - 1]);
    }
  }

  // ---------------------------------------------------------------- what a trade is

  /** Active and finalized candles start at multiples of five seconds. */
  ghost predicate OnGrid(aggs: map<string, Agg>) {
    forall symbol :: symbol in aggs ==> AggOnGrid(aggs[symbol])
  }

  ghost predicate AggOnGrid(a: Agg) {
    && (a.active.Some? ==> a.active.value.sec % CANDLE_SEC == 0)
    && forall k :: 0 <= k < |a.done| ==> a.done[k].sec % CANDLE_SEC == 0
  }

  lemma CandlePartKeepsGrid(cfg: Config, s: State, symbol: string, bar: Bar)
    requires OnGrid(s.aggs)
    ensures OnGrid(CandlePart(cfg, s, symbol, bar).aggs)
  {}

  lemma {:induction false} FinalizeCandlesKeepsGrid(cfg: Config, s: State, order: seq<string>)
    requires OnGrid(s.aggs)
    ensures OnGrid(FinalizeCandles(cfg, s, order).aggs)
  {
    if |order| > 0 {
      FinalizeCandlesKeepsGrid(cfg, s, order[..|order| - 1]);
    }
  }

  lemma {:induction false} CloseAllLeaves(cfg: Config, s: State, ts: int, given: map<string, real>)
    ensures var s' := CloseAll(cfg, s, ts, given);
            && s'.book.open == [] && s'.aggs == s.aggs && s'.prices == s.prices
            && s'.clocks == s.clocks && s'.rates == s.rates
    decreases |s.book.open|
  {
    if |s.book.open| > 0 {
      CloseAllLeaves(cfg, CloseOldest(cfg, s, ts, given), ts, given);
    }
  }

  lemma {:induction false} RunIsOnGrid(cfg: Config, es: seq<Event>)
    ensures OnGrid(Run(cfg, es).aggs)
  {
    if |es| > 0 {
      var s, e := Run(cfg, es[..|es| - 1]), es[|es| - 1];
      RunIsOnGrid(cfg, es[..|es| - 1]);
      match e
      case Ohlcv(symbol, bar, ts) => CandlePartKeepsGrid(cfg, s, symbol, bar);
      case Finalize(order, ts, given) =>
        FinalizeCandlesKeepsGrid(cfg, s, order);
        CloseAllLeaves(cfg, FinalizeCandles(cfg, s, order), ts, given);
      case _ =>
    }
  }

  lemma LaterBucket(entryTs: int, sec: int)
    requires sec % CANDLE_SEC == 0 && sec > Bucket(entryTs / 1000)
    ensures sec * 1000 > entryTs
  {
    assert Bucket(entryTs / 1000) % CANDLE_SEC == 0;
  }

  /** Every stop or target trade of every run closes on the first touching candle after its entry
      bucket, at exactly the level, later than its entry; it is a stop exit exactly when the stop is
      touched, whether or not the target is touched too. */
  lemma TradesCloseAtFirstTouch(cfg: Config, es: seq<Event>, k: nat)
    requires k < |Run(cfg, es).book.trades|
    requires !Run(cfg, es).book.trades[k].trade.reason.EndOfRun?
    ensures var s := Run(cfg, es);
            var c := s.book.trades[k];
            var t, log := c.trade, LogOf(s.aggs, c.trade.pos.symbol);
            && Untouched(t.pos, log, c.bornAt, c.closedAt)
            && c.closedAt < |log| && LeavesOn(t, log[c.closedAt])
            && t.exitTs > t.pos.entryTs
  {
    RunKeepsBook(cfg, es);
    RunIsOnGrid(cfg, es);
    var s := Run(cfg, es);
    var c := s.book.trades[k];
    assert ClosedOk(cfg, c, LogOf(s.aggs, c.trade.pos.symbol));
    LaterBucket(c.trade.pos.entryTs, LogOf(s.aggs, c.trade.pos.symbol)[c.closedAt].sec);
  }

  /** What a trade earns: gross profit is its R multiple of the amount risked at entry; a stop is
      -1 R, a target tpR R; net is gross less both fees and the funding paid. */
  ghost predicate EarnsItsR(cfg: Config, c: Closed) {
    var t, risked := c.trade, c.equity * cfg.riskPct;
    && t.pnlGross == t.r * risked
    && (t.reason.StopLoss? ==> t.r == -1.0 && t.pnlGross == -risked)
    && (t.reason.TakeProfit? ==> t.r == cfg.tpR)
    && t.pnlNet == t.pnlGross - t.feePaid - t.pos.fundingPaid
    && t.feePaid == t.pos.entryPrice * t.pos.qty * cfg.feeTaker +
                    t.exitPrice * t.pos.qty * if t.reason.TakeProfit? then cfg.feeMaker else cfg.feeTaker
  }

  lemma ClosedEarns(cfg: Config, c: Closed, log: seq<Candle>)
    requires ClosedOk(cfg, c, log)
    ensures EarnsItsR(cfg, c)
  {
    GrossOfTrade(cfg, c.trade, c.equity);
    ROfTrade(cfg, c.trade, c.equity);
  }

  lemma TradesEarnTheirR(cfg: Config, es: seq<Event>, k: nat)
    requires k < |Run(cfg, es).book.trades|
    ensures EarnsItsR(cfg, Run(cfg, es).book.trades[k])
  {
    RunKeepsBook(cfg, es);
    var s := Run(cfg, es);
    ClosedEarns(cfg, s.book.trades[k], LogOf(s.aggs, s.book.trades[k].trade.pos.symbol));
  }

  lemma GrossOfTrade(cfg: Config, t: Trade, equity: real)
    requires Sized(cfg, t.pos, equity)
    requires t == MakeTrade(cfg, t.pos, t.exitTs, t.exitPrice, t.reason)
    ensures t.pnlGross == t.r * (equity * cfg.riskPct)
  {
    var p := t.pos;
    var d := if p.dir.Long? then p.entryPrice - p.slPrice else p.slPrice - p.entryPrice;
    GrossIsRTimesRisk(p.entryPrice, t.exitPrice, d, equity * cfg.riskPct, p.dir);
  }

  lemma ROfTrade(cfg: Config, t: Trade, equity: real)
    requires Sized(cfg, t.pos, equity)
    requires t.r == RMultiple(t.pos.entryPrice, t.exitPrice, t.pos.slPrice, t.pos.dir)
    requires t.reason.StopLoss? ==> t.exitPrice == t.pos.slPrice
    requires t.reason.TakeProfit? ==> t.exitPrice == t.pos.tpPrice
    ensures t.reason.StopLoss? ==> t.r == -1.0
    ensures t.reason.TakeProfit? ==> t.r == cfg.tpR
  {
    var p := t.pos;
    var d := if p.dir.Long? then p.entryPrice - p.slPrice else p.slPrice - p.entryPrice;
    StopAndTarget(p.entryPrice, d, cfg.tpR, p.dir);
  }

  // ---------------------------------------------------------------- the ledger

  function SumNet(trades: seq<Closed>): real {
    if |trades| == 0 then 0.0 else SumNet(trades[..|trades| - 1]) + trades[|trades| - 1].trade.pnlNet
  }

  ghost predicate Balanced(cfg: Config, b: Book) {
    b.realized == cfg.initialEquity + SumNet(b.trades)
  }

  lemma CloseBalances(cfg: Config, b: Book, i: nat, ts: int, price: real, reason: ExitReason, at: nat)
    requires i < |b.open| && Balanced(cfg, b)
    ensures Balanced(cfg, CloseAt(cfg, b, i, ts, price, reason, at))
  {
    var b' := CloseAt(cfg, b, i, ts, price, reason, at);
    assert b'.trades[..|b.trades|] == b.trades;
  }

  lemma FinalizeActiveBalances(cfg: Config, s: State, symbol: string)
    requires Balanced(cfg, s.book)
    ensures Balanced(cfg, FinalizeActive(cfg, s, symbol).book)
  {
    var a, i := AggOf(s.aggs, symbol), IndexOf(s.book.open, symbol);
    if a.active.Some? && i < |s.book.open| && ExitOn(s.book.open[i].pos, a.active.value).Some? {
      var p, c := s.book.open[i].pos, a.active.value;
      var reason := ExitOn(p, c).value;
      CloseBalances(cfg, s.book, i, c.sec * 1000, LevelOf(p, reason), reason, |a.done|);
    }
  }

  lemma {:induction false} FinalizeCandlesBalance(cfg: Config, s: State, order: seq<string>)
    requires Balanced(cfg, s.book)
    ensures Balanced(cfg, FinalizeCandles(cfg, s, order).book)
  {
    if |order| > 0 {
      FinalizeCandlesBalance(cfg, s, order[..|order| - 1]);
      FinalizeActiveBalances(cfg, FinalizeCandles(cfg, s, order[..|order| - 1]), order[|order| - 1]);
    }
  }

  lemma {:induction false} CloseAllBalances(cfg: Config, s: State, ts: int, given: map<string, real>)
    requires Balanced(cfg, s.book)
    ensures Balanced(cfg, CloseAll(cfg, s, ts, given).book)
    decreases |s.book.open|
  {
    if |s.book.open| > 0 {
      var p := s.book.open[0].pos;
      CloseBalances(cfg, s.book, 0, ts, LastPrice(p, given, s.prices), EndOfRun, |LogOf(s.aggs, p.symbol)|);
      CloseAllBalances(cfg, CloseOldest(cfg, s, ts, given), ts, given);
    }
  }

  /** Over every run the realized equity is the initial equity plus the net profit of all trades. */
  lemma {:induction false} RunBalances(cfg: Config, es: seq<Event>)
    ensures Balanced(cfg, Run(cfg, es).book)
  {
    if |es| > 0 {
      RunBalances(cfg, es[..|es| - 1]);
      var s := Run(cfg, es[..|es| - 1]);
      match es[|es| - 1]
      case Ohlcv(symbol, bar, ts) => FinalizeActiveBalances(cfg, s, symbol);
      case Finalize(order, ts, given) =>
        FinalizeCandlesBalance(cfg, s, order);
        CloseAllBalances(cfg, FinalizeCandles(cfg, s, order), ts, given);
      case _ =>
    }
  }

  lemma {:induction false} SumParts(open: seq<Open>, more: seq<Open>, prices: map<string, real>)
    ensures SumMtm(open + more, prices) == SumMtm(open, prices) + SumMtm(more, prices)
  {
    if |more| == 0 {
      assert open + more == open;
    } else {
      var n := |more| - 1;
      assert (open + more)[..|open| + n] == open + more[..n];
      SumParts(open, more[..n], prices);
    }
  }

  lemma SumWithout(open: seq<Open>, i: nat, prices: map<string, real>)
    requires i < |open|
    ensures SumMtm(Without(open, i), prices) == SumMtm(open, prices) - Mtm(open[i].pos, prices)
  {
    assert open == open[..i] + [open[i]] + open[i + 1..];
    assert open[i..i + 1] == [open[i]] && [open[i]][..0] == [];
    SumParts(open[..i] + [open[i]], open[i + 1..], prices);
    SumParts(open[..i], [open[i]], prices);
    SumParts(open[..i], open[i + 1..], prices);
  }

  /** Closing a position at its last price changes the marked equity by exactly the fees. At any other
      price the difference to the last price is added. */
  lemma ClosingCostsTheFees(
    cfg: Config, b: Book, prices: map<string, real>, i: nat, ts: int, price: real, reason: ExitReason, at: nat)
    requires i < |b.open| && b.open[i].pos.symbol in prices
    ensures var p := b.open[i].pos;
            var b' := CloseAt(cfg, b, i, ts, price, reason, at);
            && Equity(b', prices) == Equity(b, prices)
                 - (p.entryFee + ExitFee(price, p.qty, cfg.feeTaker, cfg.feeMaker, reason))
                 + PnlGross(prices[p.symbol], price, p.qty, p.dir)
            && (price == prices[p.symbol] ==> PnlGross(prices[p.symbol], price, p.qty, p.dir) == 0.0)
  {
    SumWithout(b.open, i, prices);
    var p := b.open[i].pos;
    GrossSplits(p.entryPrice, prices[p.symbol], price, p.qty, p.dir);
  }

  lemma GrossSplits(fill: real, mid: real, exit: real, qty: real, dir: Direction)
    ensures PnlGross(fill, exit, qty, dir) == PnlGross(fill, mid, qty, dir) + PnlGross(mid, exit, qty, dir)
    ensures PnlGross(mid, mid, qty, dir) == 0.0
  {}

  /** An entry is taken exactly when the symbol and the limits leave room, the ATR is there, and stop
      distance and risked amount are positive. */
  lemma EntryTaken(cfg: Config, s: State, symbol: string, dir: Direction, ts: int, close: real)
    ensures var b, atr := s.book, Atr(LogOf(s.aggs, symbol), cfg.atrPeriod);
            |OnEntry(cfg, s, symbol, dir, ts, close).book.open| == |b.open| + 1 <==>
              && IndexOf(b.open, symbol) == |b.open| < cfg.maxGlobal && cfg.maxPerSymbol >= 1
              && atr.Some? && SlDistance(atr.value, close, cfg.slAtr, cfg.maxSl, cfg.minSl) > 0.0
              && Equity(b, s.prices) * cfg.riskPct > 0.0
  {
    var atr := Atr(LogOf(s.aggs, symbol), cfg.atrPeriod);
    if atr.Some? {
      SameSign(Equity(s.book, s.prices) * cfg.riskPct, SlDistance(atr.value, close, cfg.slAtr, cfg.maxSl, cfg.minSl));
    }
  }

  /** An entry records the equity and the history of its moment and moves the marked equity only by
      what the position is worth at the last price; trades and realized equity stay. */
  lemma EntryEffect(cfg: Config, s: State, symbol: string, dir: Direction, ts: int, close: real)
    ensures var b, b' := s.book, OnEntry(cfg, s, symbol, dir, ts, close).book;
            var n := |b.open|;
            && b'.trades == b.trades && b'.realized == b.realized
            && (b' == b || (|b'.open| == n + 1 && b'.open[..n] == b.open && b'.open[n].pos.symbol == symbol
                            && b'.open[n].equity == Equity(b, s.prices) && b'.open[n].bornAt == |LogOf(s.aggs, symbol)|
                            && Equity(b', s.prices) == Equity(b, s.prices) + Mtm(b'.open[n].pos, s.prices)))
  {
  }

  lemma SameSign(x: real, d: real)
    ensures d > 0.0 ==> (x / d > 0.0 <==> x > 0.0)
  {
    if d > 0.0 { assert x / d * d == x; }
  }

  // ---------------------------------------------------------------- prices, limits and the end

  /** A symbol with candles has a last price, and so has every open position. */
  ghost predicate Priced(s: State) {
    s.aggs.Keys <= s.prices.Keys && AllPriced(s.book.open, s.prices)
  }

  ghost predicate AllPriced(open: seq<Open>, prices: map<string, real>) {
    forall i :: 0 <= i < |open| ==> open[i].pos.symbol in prices
  }

  lemma FinalizeActiveKeepsPriced(cfg: Config, s: State, symbol: string)
    ensures var s' := FinalizeActive(cfg, s, symbol);
            && s'.prices == s.prices && s'.aggs.Keys == s.aggs.Keys
            && |s'.book.open| <= |s.book.open|
            && (AllPriced(s.book.open, s.prices) ==> AllPriced(s'.book.open, s.prices))
  {}

  lemma OhlcvKeepsPriced(cfg: Config, s: State, symbol: string, bar: Bar, ts: int)
    ensures var s' := OnOhlcv(cfg, s, symbol, bar, ts);
            (Priced(s) ==> Priced(s')) && |s'.book.open| <= |s.book.open|
  {
    FinalizeActiveKeepsPriced(cfg, s, symbol);
    var s1, s' := CandlePart(cfg, s, symbol, bar), OnOhlcv(cfg, s, symbol, bar, ts);
    assert s1.prices == s.prices && s1.aggs.Keys == s.aggs.Keys + {symbol};
    assert |s'.book.open| == |s1.book.open|;
    assert forall i :: 0 <= i < |s1.book.open| ==> s'.book.open[i].pos.symbol == s1.book.open[i].pos.symbol;
  }

  lemma EntryKeepsPriced(cfg: Config, s: State, symbol: string, dir: Direction, ts: int, close: real)
    requires Priced(s)
    ensures Priced(OnEntry(cfg, s, symbol, dir, ts, close))
  {}

  lemma {:induction false} FinalizeCandlesKeepsPriced(cfg: Config, s: State, order: seq<string>)
    ensures var s' := FinalizeCandles(cfg, s, order);
            && s'.prices == s.prices && s'.aggs.Keys == s.aggs.Keys
            && (AllPriced(s.book.open, s.prices) ==> AllPriced(s'.book.open, s.prices))
  {
    if |order| > 0 {
      FinalizeCandlesKeepsPriced(cfg, s, order[..|order| - 1]);
      FinalizeActiveKeepsPriced(cfg, FinalizeCandles(cfg, s, order[..|order| - 1]), order[|order| - 1]);
    }
  }

  /** Over every run each open position has a last price; so the branches that fall back to the
      entry price, or skip a position when marking to market, are never taken. There is at most one
      position per symbol and at most maxGlobal in all. */
  lemma {:induction false} RunIsPriced(cfg: Config, es: seq<Event>)
    ensures var s := Run(cfg, es);
            Priced(s) && Distinct(s.book.open) && |s.book.open| <= if cfg.maxGlobal > 0 then cfg.maxGlobal else 0
  {
    RunKeepsBook(cfg, es);
    if |es| > 0 {
      RunIsPriced(cfg, es[..|es| - 1]);
      StepKeepsPriced(cfg, Run(cfg, es[..|es| - 1]), es[|es| - 1]);
    }
  }

  lemma StepKeepsPriced(cfg: Config, s: State, e: Event)
    requires Priced(s)
    ensures var s' := Step(cfg, s, e);
            Priced(s') && (|s'.book.open| <= |s.book.open| || |s'.book.open| <= cfg.maxGlobal)
  {
    match e
    case Ohlcv(symbol, bar, ts) => OhlcvKeepsPriced(cfg, s, symbol, bar, ts);
    case Ticker(_, _) =>
    case Entry(symbol, dir, ts, close) => EntryKeepsPriced(cfg, s, symbol, dir, ts, close);
    case Finalize(order, ts, given) =>
      FinalizeCandlesKeepsPriced(cfg, s, order);
      CloseAllLeaves(cfg, FinalizeCandles(cfg, s, order), ts, given);
  }

  /** After finalize nothing is open, and equity is the realized equity, the initial equity plus the
      net profit of every trade. */
  lemma FinalizeRealizesEverything(cfg: Config, es: seq<Event>, order: seq<string>, ts: int, given: map<string, real>)
    ensures var s := Step(cfg, Run(cfg, es), Finalize(order, ts, given));
            && s.book.open == []
            && Equity(s.book, s.prices) == s.book.realized == cfg.initialEquity + SumNet(s.book.trades)
  {
    var all := es + [Finalize(order, ts, given)];
    assert all[..|es|] == es;
    RunBalances(cfg, all);
    CloseAllLeaves(cfg, FinalizeCandles(cfg, Run(cfg, es), order), ts, given);
  }

  // ---------------------------------------------------------------- the timelines of one symbol

  function BarsOf(es: seq<Event>, symbol: string): seq<Bar> {
    if |es| == 0 then []
    else
      var e := es[|es| - 1];
      BarsOf(es[..|es| - 1], symbol) + if e.Ohlcv? && e.symbol == symbol then [e.bar] else []
  }

  function TimesOf(es: seq<Event>, symbol: string): seq<int> {
    if |es| == 0 then []
    else
      var e := es[|es| - 1];
      TimesOf(es[..|es| - 1], symbol) + if e.Ohlcv? && e.symbol == symbol then [e.ts] else []
  }

  lemma OhlcvTimelines(cfg: Config, s: State, symbol: string, bar: Bar, ts: int, of: string)
    ensures var s' := OnOhlcv(cfg, s, symbol, bar, ts);
            && AggOf(s'.aggs, of) == (if of == symbol then Feed(AggOf(s.aggs, of), bar) else AggOf(s.aggs, of))
            && ClockOf(s'.clocks, of) ==
               (if of == symbol then Funding.Tick(ClockOf(s.clocks, of), ts) else ClockOf(s.clocks, of))
  {
    var s1 := CandlePart(cfg, s, symbol, bar);
    assert s1.clocks == s.clocks;
  }

  /** The simulator keeps one timeline per symbol: up to finalize its candles are those of the
      symbol's bars alone, and its funding clock that of the symbol's event times alone. */
  lemma {:induction false} TimelinesAreSeparate(cfg: Config, es: seq<Event>, symbol: string)
    requires forall i :: 0 <= i < |es| ==> !es[i].Finalize?
    ensures var s := Run(cfg, es);
            && AggOf(s.aggs, symbol) == FeedAll(BarsOf(es, symbol))
            && ClockOf(s.clocks, symbol) == Funding.Ticks(TimesOf(es, symbol))
  {
    if |es| > 0 {
      var n := |es| - 1;
      TimelinesAreSeparate(cfg, es[..n], symbol);
      TimelineStep(cfg, Run(cfg, es[..n]), es[n], BarsOf(es[..n], symbol), TimesOf(es[..n], symbol), symbol);
    }
  }

  lemma TimelineStep(cfg: Config, s: State, e: Event, bars: seq<Bar>, times: seq<int>, symbol: string)
    requires !e.Finalize?
    requires AggOf(s.aggs, symbol) == FeedAll(bars) && ClockOf(s.clocks, symbol) == Funding.Ticks(times)
    ensures var s', own := Step(cfg, s, e), e.Ohlcv? && e.symbol == symbol;
            && AggOf(s'.aggs, symbol) == FeedAll(bars + if own then [e.bar] else [])
            && ClockOf(s'.clocks, symbol) == Funding.Ticks(times + if own then [e.ts] else [])
  {
    assert bars + [] == bars && times + [] == times;
    if e.Ohlcv? {
      OhlcvTimelines(cfg, s, e.symbol, e.bar, e.ts, symbol);
      FeedOne(bars, e.bar);
      TickOne(times, e.ts);
    }
  }

  lemma FeedOne(bars: seq<Bar>, b: Bar)
    ensures FeedAll(bars + [b]) == Feed(FeedAll(bars), b)
  {
    assert (bars + [b])[..|bars|] == bars;
  }

  lemma TickOne(times: seq<int>, ts: int)
    ensures Funding.Ticks(times + [ts]) == Funding.Tick(Funding.Ticks(times), ts)
  {
    assert (times + [ts])[..|times|] == times;
  }

  function RatesOf(es: seq<Event>, symbol: string): seq<real> {
    if |es| == 0 then []
    else
      var e := es[|es| - 1];
      RatesOf(es[..|es| - 1], symbol) + if e.Ticker? && e.symbol == symbol then [e.rate] else []
  }

  /** The last price of a symbol is the close of its last bar, and its funding rate that of its last
      ticker; without any there is no price, and the rate is zero. */
  lemma {:induction false} LastPriceIsLastClose(cfg: Config, es: seq<Event>, symbol: string)
    ensures SeesLast(Run(cfg, es), symbol, BarsOf(es, symbol), RatesOf(es, symbol))
  {
    if |es| > 0 {
      var before := es[..|es| - 1];
      LastPriceIsLastClose(cfg, before, symbol);
      SeesNext(cfg, Run(cfg, before), es[|es| - 1], symbol, BarsOf(before, symbol), RatesOf(before, symbol));
    }
  }

  ghost predicate SeesLast(s: State, symbol: string, bars: seq<Bar>, rates: seq<real>) {
    && (symbol in s.prices <==> |bars| > 0)
    && (|bars| > 0 ==> s.prices[symbol] == bars[|bars| - 1].close)
    && RateOf(s.rates, symbol) == if |rates| > 0 then rates[|rates| - 1] else 0.0
  }

  lemma SeesNext(cfg: Config, s: State, e: Event, symbol: string, bars: seq<Bar>, rates: seq<real>)
    requires SeesLast(s, symbol, bars, rates)
    ensures SeesLast(Step(cfg, s, e), symbol, bars + (if e.Ohlcv? && e.symbol == symbol then [e.bar] else []),
                     rates + if e.Ticker? && e.symbol == symbol then [e.rate] else [])
  {
    PricesStep(cfg, s, e);
    assert bars + [] == bars && rates + [] == rates;
  }

  lemma PricesStep(cfg: Config, s: State, e: Event)
    ensures var s' := Step(cfg, s, e);
            && s'.prices == (if e.Ohlcv? then s.prices[e.symbol := e.bar.close] else s.prices)
            && s'.rates == if e.Ticker? then s.rates[e.symbol := e.rate] else s.rates
  {
    if e.Finalize? {
      FinalizeCandlesKeepsPriced(cfg, s, e.order);
      RatesStay(cfg, s, e.order);
      CloseAllLeaves(cfg, FinalizeCandles(cfg, s, e.order), e.ts, e.given);
    }
  }

  lemma {:induction false} RatesStay(cfg: Config, s: State, order: seq<string>)
    ensures FinalizeCandles(cfg, s, order).rates == s.rates
  {
    if |order| > 0 { RatesStay(cfg, s, order[..|order| - 1]); }
  }
}
