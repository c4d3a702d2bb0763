/** The paper position manager against the simulator: same candles, and exactly when the same entries. */
module PaperParity {
  import opened Basics
  import opened Candles
  import opened PaperMath
  import opened SimSpec
  import opened PaperSpec

  // ---------------------------------------------------------------- against the simulator

  /** A bar feeds the candles of its own symbol, as the aggregator of the paper manager does, whatever
      exit it causes. */
  lemma BarAggregates(cfg: PaperConfig, s: Paper, symbol: string, bar: Bar, w: Write, of: string)
    ensures AggOf(BarCommit(cfg, s, symbol, bar, w).mk.aggs, of) ==
            if of == symbol then PaperFeed(AggOf(s.mk.aggs, of), bar) else AggOf(s.mk.aggs, of)
  {}

  lemma FloorIsPositive(atr: real, price: real, multiplier: real, maxPct: real, minPct: real)
    requires atr > 0.0 && price > 0.0 && minPct > 0.0
    ensures SlDistance(atr, price, multiplier, maxPct, minPct) > 0.0
  {
    assert minPct * price > 0.0;
  }

  lemma SizeIsPositive(equity: real, riskPct: real, d: real)
    requires equity > 0.0 && riskPct > 0.0 && d > 0.0
    ensures equity * riskPct / d > 0.0
  {
    assert equity * riskPct > 0.0;
  }

  lemma SimEnters(cfg: Config, equity: real, atr: real, symbol: string, dir: Direction, ts: int, price: real)
    requires atr > 0.0 && price > 0.0 && equity > 0.0 && cfg.riskPct > 0.0 && cfg.minSl > 0.0
    ensures var d := SlDistance(atr, price, cfg.slAtr, cfg.maxSl, cfg.minSl);
            d > 0.0 && NewPosition(cfg, equity, Some(atr), symbol, dir, ts, price) ==
                       Some(PositionAt(cfg, equity, symbol, dir, ts, EntryFill(price, dir, cfg.slippageBps), d))
  {
    FloorIsPositive(atr, price, cfg.slAtr, cfg.maxSl, cfg.minSl);
    SizeIsPositive(equity, cfg.riskPct, SlDistance(atr, price, cfg.slAtr, cfg.maxSl, cfg.minSl));
  }

  lemma PaperEnters(cfg: Config, equity: real, atr: real, symbol: string, dir: Direction, ts: int, price: real)
    requires atr > 0.0 && equity > 0.0 && cfg.riskPct > 0.0 && cfg.minSl > 0.0
    requires EntryFill(price, dir, cfg.slippageBps) > 0.0
    ensures var fill := EntryFill(price, dir, cfg.slippageBps);
            var d := SlDistance(atr, fill, cfg.slAtr, cfg.maxSl, cfg.minSl);
            d > 0.0 && PlanEntry(cfg, equity, Some(atr), symbol, dir, ts, price) ==
                       Go(PositionAt(cfg, equity, symbol, dir, ts, fill, d))
  {
    var fill := EntryFill(price, dir, cfg.slippageBps);
    var d := SlDistance(atr, fill, cfg.slAtr, cfg.maxSl, cfg.minSl);
    FloorIsPositive(atr, fill, cfg.slAtr, cfg.maxSl, cfg.minSl);
    QtyIsPositive(equity, cfg.riskPct, d);
    SameFields(cfg, equity, symbol, dir, ts, fill, d);
  }

  lemma QtyIsPositive(equity: real, riskPct: real, d: real)
    requires equity > 0.0 && riskPct > 0.0 && d > 0.0
    ensures Qty(equity, riskPct, d) > 0.0
  {
    SizeIsPositive(equity, riskPct, d);
  }

  lemma SameFields(cfg: Config, equity: real, symbol: string, dir: Direction, ts: int, fill: real, d: real)
    requires equity > 0.0 && d > 0.0
    ensures var qty := Qty(equity, cfg.riskPct, d);
            PositionAt(cfg, equity, symbol, dir, ts, fill, d) ==
            Position(symbol, dir, ts, Bucket(ts / 1000), fill, qty, SlPrice(fill, d, dir),
                     TpPrice(fill, d, cfg.tpR, dir), EntryFee(fill, qty, cfg.feeTaker), 0.0)
  {
  }

  /** Neither the cap nor the floor bites at either price. */
  predicate InBand(cfg: Config, atr: real, p: real, q: real) {
    if p < q then Between(cfg, atr, p, q) else Between(cfg, atr, q, p)
  }

  predicate Between(cfg: Config, atr: real, low: real, high: real) {
    cfg.minSl * high <= cfg.slAtr * atr <= cfg.maxSl * low
  }

  lemma DistancesAgreeInBand(cfg: Config, atr: real, p: real, q: real)
    requires atr > 0.0 && p > 0.0 && q > 0.0 && 0.0 < cfg.minSl <= cfg.maxSl && p != q
    ensures SlDistance(atr, p, cfg.slAtr, cfg.maxSl, cfg.minSl) == SlDistance(atr, q, cfg.slAtr, cfg.maxSl, cfg.minSl)
            <==> InBand(cfg, atr, p, q)
  {
    if p < q { DistancesAgreeBetween(cfg, atr, p, q); } else { DistancesAgreeBetween(cfg, atr, q, p); }
  }

  lemma DistancesAgreeBetween(cfg: Config, atr: real, low: real, high: real)
    requires atr > 0.0 && 0.0 < low < high && 0.0 < cfg.minSl <= cfg.maxSl
    ensures SlDistance(atr, low, cfg.slAtr, cfg.maxSl, cfg.minSl) ==
            SlDistance(atr, high, cfg.slAtr, cfg.maxSl, cfg.minSl)
            <==> Between(cfg, atr, low, high)
  {
    DistancesAgree(atr, low, high, cfg.slAtr, cfg.maxSl, cfg.minSl);
  }

  lemma FillMoves(price: real, dir: Direction, bps: real)
    requires price > 0.0
    ensures EntryFill(price, dir, bps) == price <==> bps == 0.0
  {
    var x := bps / 10000.0;
    assert price * (1.0 + x) == price + price * x && price * (1.0 - x) == price - price * x;
    if x != 0.0 { NonzeroProduct(price, x); }
  }

  lemma NonzeroProduct(x: real, y: real)
    requires x != 0.0 && y != 0.0
    ensures x * y != 0.0
  {
  }

  /** On the same equity, ATR and price both components enter; and they enter the same position exactly
      when there is no slippage, or the stop distance runs into neither cap nor floor, neither at the
      price, where the simulator measures it, nor at the fill, where the paper manager does. */
  lemma EntriesMatch(cfg: Config, equity: real, atr: real, symbol: string, dir: Direction, ts: int, price: real)
    requires atr > 0.0 && price > 0.0 && equity > 0.0 && cfg.riskPct > 0.0 && 0.0 < cfg.minSl <= cfg.maxSl
    requires EntryFill(price, dir, cfg.slippageBps) > 0.0
    ensures var sim := NewPosition(cfg, equity, Some(atr), symbol, dir, ts, price);
            var paper := PlanEntry(cfg, equity, Some(atr), symbol, dir, ts, price);
            && sim.Some? && paper.Go?
            && (sim.value == paper.p <==>
                  cfg.slippageBps == 0.0 || InBand(cfg, atr, price, EntryFill(price, dir, cfg.slippageBps)))
  {
    var fill := EntryFill(price, dir, cfg.slippageBps);
    SimEnters(cfg, equity, atr, symbol, dir, ts, price);
    PaperEnters(cfg, equity, atr, symbol, dir, ts, price);
    FillMoves(price, dir, cfg.slippageBps);
    if fill != price { DistancesAgreeInBand(cfg, atr, price, fill); }
    DistanceTells(cfg, equity, symbol, dir, ts, fill, SlDistance(atr, price, cfg.slAtr, cfg.maxSl, cfg.minSl),
                  SlDistance(atr, fill, cfg.slAtr, cfg.maxSl, cfg.minSl));
  }

  /** Positions at one fill are the same exactly if their stop distances are. */
  lemma DistanceTells(
    cfg: Config, equity: real, symbol: string, dir: Direction, ts: int, fill: real, d: real, d': real)
    requires d > 0.0 && d' > 0.0
    ensures PositionAt(cfg, equity, symbol, dir, ts, fill, d) == PositionAt(cfg, equity, symbol, dir, ts, fill, d')
            <==> d == d'
  {
    assert SlPrice(fill, d, dir) == SlPrice(fill, d', dir) ==> d == d';
  }

  /** The defaults of the paper manager. */
  const DEFAULTS := Config(10000.0, 0.006, 14, 0.5, 2.0, 0.025, 0.002, 2.0, 0.0002, 0.0, false, 1, 2)

  /** With the defaults, an ATR of 10 at a price of 100 is capped, and the two entries differ. */
  lemma CappedEntriesDiffer(symbol: string, ts: int)
    ensures var sim := NewPosition(DEFAULTS, 10000.0, Some(10.0), symbol, Long, ts, 100.0);
            var paper := PlanEntry(DEFAULTS, 10000.0, Some(10.0), symbol, Long, ts, 100.0);
            sim.Some? && paper.Go? && sim.value != paper.p
  {
    assert EntryFill(100.0, Long, 2.0) == 100.02;
    assert !InBand(DEFAULTS, 10.0, 100.0, 100.02);
    EntriesMatch(DEFAULTS, 10000.0, 10.0, symbol, Long, ts, 100.0);
  }

  // ---------------------------------------------------------------- a reused id

  const EAGER := DEFAULTS.(atrPeriod := 1)
  const SWING := Candle(0, 100.0, 110.0, 90.0, 100.0)
  const GONE := Position("A", Long, 0, 0, 100.0, 1.0, 98.0, 104.0, 0.02, 0.0)
  const REUSED := Id("A", 0)

  /** A process that has closed a position of symbol "A" and signal time 0, with an ATR of 20. */
  function AfterClose(exit: Exit): Paper {
    var db := map[REUSED := Row(GONE, Some(exit))];
    Paper(map[], db, db, Free,
          Market(map["A" := Agg(None, [SWING, SWING])], map[], map[], map["A" := 100.0], map["A" := 0]),
          10000.0, [], None)
  }

  /** The same signal again: the entry commits, memory has the position, and no OPEN row does. */
  lemma ReusedIdIsNotStored(exit: Exit)
    ensures var cfg := PaperConfig(EAGER, 5000, 100);
            var s' := EntryCommit(cfg, AfterClose(exit), "A", Long, 0, 100.0, 0, Commits);
            && s'.hand.Opening? && s'.hand.p.symbol == "A"
            && forall id :: id in s'.disk ==> s'.disk[id].exit.Some?
  {
    var cfg, s := PaperConfig(EAGER, 5000, 100), AfterClose(exit);
    assert LogOf(s.mk.aggs, "A") == [SWING, SWING];
    SwingRange();
    assert EquityOf(s) == 10000.0;
    assert EntryFill(100.0, Long, 2.0) == 100.02;
    PaperEnters(EAGER, 10000.0, 20.0, "A", Long, 0, 100.0);
  }

  lemma SwingRange()
    ensures Atr([SWING, SWING], 1) == Some(20.0)
  {
    assert TrueRange(SWING, SWING) == 20.0;
    assert SumRanges([SWING, SWING], 1, 1) == 0.0;
    assert SumRanges([SWING, SWING], 1, 2) == 20.0;
  }
}
