/** What entries, funding and the end of a run come to in figures, for simulator and paper manager. */
module TradeFigures {
  import opened Basics
  import opened Candles
  import opened PaperMath
  import opened SimSpec
  import opened PaperSpec
  import Funding

  // ---------------------------------------------------------------- entries

  /** A long pays the slippage on top of the price, a short gives it away. */
  predicate FillsAt(fill: real, price: real, dir: Direction, bps: real) {
    fill - price == if dir == Long then price * (bps / 10000.0) else -(price * (bps / 10000.0))
  }

  lemma SlippageIsPaid(price: real, dir: Direction, bps: real)
    requires price > 0.0
    ensures FillsAt(EntryFill(price, dir, bps), price, dir, bps)
  {
    var x := bps / 10000.0;
    assert price * (1.0 + x) == price + price * x && price * (1.0 - x) == price - price * x;
  }

  /** The figures of an entry: its fill, and the stop distance away on the losing side. */
  predicate EntersAt(cfg: Config, p: Position, price: real, d: real) {
    && FillsAt(p.entryPrice, price, p.dir, cfg.slippageBps)
    && p.slPrice == (if p.dir == Long then p.entryPrice - d else p.entryPrice + d)
    && p.tpPrice == (if p.dir == Long then p.entryPrice + cfg.tpR * d else p.entryPrice - cfg.tpR * d)
    && p.entryFee == p.entryPrice * p.qty * cfg.feeTaker && p.fundingPaid == 0.0
  }

  lemma SimEntryFigures(
    cfg: Config, equity: real, atr: real, symbol: string, dir: Direction, ts: int, close: real)
    requires NewPosition(cfg, equity, Some(atr), symbol, dir, ts, close).Some?
    ensures var p := NewPosition(cfg, equity, Some(atr), symbol, dir, ts, close).value;
            && close > 0.0 && p.symbol == symbol && p.dir == dir && p.entryTs == ts
            && EntersAt(cfg, p, close, SlDistance(atr, close, cfg.slAtr, cfg.maxSl, cfg.minSl))
  {
    SlippageIsPaid(close, dir, cfg.slippageBps);
  }

  lemma PaperEntryFigures(
    cfg: Config, equity: real, atr: real, symbol: string, dir: Direction, ts: int, price: real)
    requires PlanEntry(cfg, equity, Some(atr), symbol, dir, ts, price).Go?
    ensures var p := PlanEntry(cfg, equity, Some(atr), symbol, dir, ts, price).p;
            && price > 0.0 && p.symbol == symbol && p.dir == dir && p.entryTs == ts
            && EntersAt(cfg, p, price, SlDistance(atr, p.entryPrice, cfg.slAtr, cfg.maxSl, cfg.minSl))
  {
    SlippageIsPaid(price, dir, cfg.slippageBps);
  }

  /** The stop distance is the multiple of the ATR, cut at maxPct of the price and then raised to
      minPct. */
  lemma StopDistanceIsClamped(atr: real, price: real, multiplier: real, maxPct: real, minPct: real)
    requires atr > 0.0 && price > 0.0
    ensures var d := SlDistance(atr, price, multiplier, maxPct, minPct);
            var raw, cap, floor := multiplier * atr, maxPct * price, minPct * price;
            && (floor <= raw <= cap ==> d == raw)
            && (floor <= cap < raw ==> d == cap)
            && (raw < floor || cap < floor ==> d == floor)
  {
  }

  /** A paper entry is taken exactly when its write commits, the price is fresh and positive, symbol and
      limits leave room, the ATR is there, and fill, stop distance and risked amount are positive. */
  lemma PaperEntryTaken(
    cfg: PaperConfig, s: Paper, symbol: string, dir: Direction, ts: int, price: real, mono: int, w: Write)
    requires s.hand.Free?
    ensures var c, atr := cfg.trading, Atr(LogOf(s.mk.aggs, symbol), cfg.trading.atrPeriod);
            var fill := EntryFill(price, dir, c.slippageBps);
            EntryCommit(cfg, s, symbol, dir, ts, price, mono, w).hand.Opening? <==>
              && w.Commits? && symbol in s.mk.monos && s.mk.monos[symbol] + cfg.staleMs >= mono && price > 0.0
              && symbol !in s.memory && |s.memory| < c.maxGlobal && c.maxPerSymbol >= 1
              && atr.Some? && atr.value > 0.0 && fill > 0.0
              && SlDistance(atr.value, fill, c.slAtr, c.maxSl, c.minSl) > 0.0
              && EquityOf(s) > 0.0 && EquityOf(s) * c.riskPct > 0.0
  {
    var atr := Atr(LogOf(s.mk.aggs, symbol), cfg.trading.atrPeriod);
    var fill := EntryFill(price, dir, cfg.trading.slippageBps);
    if atr.Some? {
      QtySign(EquityOf(s), cfg.trading.riskPct,
              SlDistance(atr.value, fill, cfg.trading.slAtr, cfg.trading.maxSl, cfg.trading.minSl));
    }
  }

  /** Why an entry is refused: the first of these that holds, in the order of the checks. */
  lemma PaperRefusal(
    cfg: PaperConfig, s: Paper, symbol: string, dir: Direction, ts: int, price: real, mono: int, w: Write)
    requires s.hand.Free?
    ensures var c, atr := cfg.trading, Atr(LogOf(s.mk.aggs, symbol), cfg.trading.atrPeriod);
            var fill := EntryFill(price, dir, c.slippageBps);
            EntryCommit(cfg, s, symbol, dir, ts, price, mono, w).refused ==
              if symbol !in s.mk.monos || s.mk.monos[symbol] + cfg.staleMs < mono then Some(StalePrice)
              else if price <= 0.0 then Some(InvalidPrice)
              else if symbol in s.memory then Some(SymbolFull)
              else if |s.memory| >= c.maxGlobal then Some(GlobalLimit)
              else if c.maxPerSymbol < 1 then Some(SymbolFull)
              else if atr.None? || atr.value <= 0.0 then Some(AtrNotReady)
              else if fill <= 0.0 then Some(InvalidPrice)
              else if SlDistance(atr.value, fill, c.slAtr, c.maxSl, c.minSl) <= 0.0 then Some(InvalidDistance)
              else if EquityOf(s) <= 0.0 || EquityOf(s) * c.riskPct <= 0.0 then Some(InvalidQty)
              else if w.Commits? then None
              else Some(DbWriteFailed)
  {
    var c, atr := cfg.trading, Atr(LogOf(s.mk.aggs, symbol), cfg.trading.atrPeriod);
    var fill := EntryFill(price, dir, c.slippageBps);
    if atr.Some? {
      QtySign(EquityOf(s), c.riskPct, SlDistance(atr.value, fill, c.slAtr, c.maxSl, c.minSl));
    }
  }

  /** What the simulator says of an entry: taken symbols and full limits are named, anything later is not. */
  lemma SimRefusal(cfg: Config, s: State, symbol: string, dir: Direction, ts: int, close: real)
    ensures var open := s.book.open;
            OnEntry(cfg, s, symbol, dir, ts, close).rejected ==
              if exists i :: 0 <= i < |open| && open[i].pos.symbol == symbol then Some(SymbolTaken)
              else if |open| >= cfg.maxGlobal then Some(GlobalFull)
              else if cfg.maxPerSymbol < 1 then Some(SymbolTaken)
              else None
  {
  }

  lemma QtySign(equity: real, riskPct: real, d: real)
    ensures Qty(equity, riskPct, d) > 0.0 <==> d > 0.0 && equity > 0.0 && equity * riskPct > 0.0
  {
    if d > 0.0 { assert equity * riskPct / d * d == equity * riskPct; }
  }

  /** Only ticks refresh a price: a bar stamps a symbol that has no stamp yet, and no other. */
  lemma BarsDoNotRefresh(cfg: PaperConfig, s: Paper, symbol: string, ts: int, close: real, mono: int, x: string)
    ensures var monos := ClockTurn(cfg, s, symbol, ts, close, mono).mk.monos;
            x in s.mk.monos ==> x in monos && monos[x] == s.mk.monos[x]
    ensures close > 0.0 ==>
              var mk := ClockTurn(cfg, s, symbol, ts, close, mono).mk;
              symbol in mk.monos && mk.prices == s.mk.prices[symbol := close]
    ensures s.hand.Free? && close > 0.0 ==>
              var mk := PaperStep(cfg, s, PriceTick(x, close, mono)).mk;
              x in mk.monos && mk.monos[x] == mono && x in mk.prices && mk.prices[x] == close
  {
  }

  // ---------------------------------------------------------------- funding

  /** At a positive rate a long pays rate times its notional at every boundary, and a short receives it. */
  predicate PaysFunding(p: Position, p': Position, rate: real, boundaries: int) {
    var due := boundaries as real * (rate * (p.entryPrice * p.qty));
    p' == p.(fundingPaid := if p.dir == Long then p.fundingPaid + due else p.fundingPaid - due)
  }

  lemma LongsPayPositiveRates(p: Position, rate: real, boundaries: int)
    ensures PaysFunding(p, Paid(p, rate, boundaries), rate, boundaries)
  {
    var due := rate * (p.entryPrice * p.qty);
    assert boundaries as real * -due == -(boundaries as real * due);
  }

  /** With funding switched off nothing is paid. */
  lemma NothingIsPaidWithoutFunding(cfg: Config, s: State, paper: PaperConfig, p: Paper, symbol: string, ts: int)
    ensures !cfg.includeFunding ==> FundingPart(cfg, s, symbol, ts).book == s.book
    ensures !paper.trading.includeFunding ==> FundingTurn(paper, p, symbol, ts).memory == p.memory
  {
  }

  /** Boundaries that the clock of a symbol passes at an event. */
  function Passed(clocks: map<string, Funding.Clock>, symbol: string, ts: int): int {
    Fired(Funding.Tick(ClockOf(clocks, symbol), ts)) - Fired(ClockOf(clocks, symbol))
  }

  lemma SimFunding(cfg: Config, s: State, symbol: string, ts: int, i: nat)
    requires i < |s.book.open| && IndexOf(s.book.open, symbol) == i && cfg.includeFunding
    ensures var open := FundingPart(cfg, s, symbol, ts).book.open;
            && |open| == |s.book.open|
            && PaysFunding(s.book.open[i].pos, open[i].pos, RateOf(s.rates, symbol), Passed(s.clocks, symbol, ts))
            && forall k :: 0 <= k < |open| && k != i ==> open[k] == s.book.open[k]
  {
    LongsPayPositiveRates(s.book.open[i].pos, RateOf(s.rates, symbol), Passed(s.clocks, symbol, ts));
  }

  lemma PaperFunding(cfg: PaperConfig, s: Paper, symbol: string, ts: int)
    requires symbol in s.memory && cfg.trading.includeFunding
    ensures var m := FundingTurn(cfg, s, symbol, ts).memory;
            && m.Keys == s.memory.Keys
            && PaysFunding(s.memory[symbol], m[symbol], RateOf(s.mk.rates, symbol), Passed(s.mk.clocks, symbol, ts))
            && forall x :: x in m && x != symbol ==> m[x] == s.memory[x]
  {
    LongsPayPositiveRates(s.memory[symbol], RateOf(s.mk.rates, symbol), Passed(s.mk.clocks, symbol, ts));
  }

  // ---------------------------------------------------------------- the end of a run

  /** The price given for the symbol if it is positive, else the last price seen, else the entry. */
  predicate EndsAt(t: Trade, ts: int, given: map<string, real>, prices: map<string, real>) {
    var x := t.pos.symbol;
    && t.reason == EndOfRun && t.exitTs == ts
    && (x in given && given[x] > 0.0 ==> t.exitPrice == given[x])
    && ((x !in given || given[x] <= 0.0) && x in prices ==> t.exitPrice == prices[x])
    && ((x !in given || given[x] <= 0.0) && x !in prices ==> t.exitPrice == t.pos.entryPrice)
  }

  /** Finalize closes the positions in order of entry, each at that price. */
  lemma {:induction false} FinalizePrices(cfg: Config, s: State, ts: int, given: map<string, real>)
    ensures var s' := CloseAll(cfg, s, ts, given);
            && |s'.book.trades| == |s.book.trades| + |s.book.open| && s.book.trades <= s'.book.trades
            && forall k :: 0 <= k < |s.book.open| ==>
                 var t := s'.book.trades[|s.book.trades| + k].trade;
                 t.pos == s.book.open[k].pos && EndsAt(t, ts, given, s.prices)
    decreases |s.book.open|
  {
    if |s.book.open| > 0 {
      var s1 := CloseOldest(cfg, s, ts, given);
      FinalizePrices(cfg, s1, ts, given);
      var s' := CloseAll(cfg, s, ts, given);
      assert EndsAt(s1.book.trades[|s.book.trades|].trade, ts, given, s.prices);
      forall k | 0 <= k < |s.book.open|
        ensures s'.book.trades[|s.book.trades| + k].trade.pos == s.book.open[k].pos
        ensures EndsAt(s'.book.trades[|s.book.trades| + k].trade, ts, given, s.prices)
      {
        if k > 0 {
          assert s1.book.open[k - 1] == s.book.open[k];
        } else {
          assert s'.book.trades[|s.book.trades|] == s1.book.trades[|s.book.trades|];
        }
      }
    }
  }
}
