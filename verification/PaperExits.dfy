/** The paper manager leaves a position on the first candle that touches its stop or target, unless the
  write of an exit raised.
 */
module PaperExits {
  import opened Basics
  import opened Candles
  import opened SimSpec
  import opened TouchRules
  import opened PaperSpec
  import opened PaperRuns

  // ---------------------------------------------------------------- one candle

  /** The candle that an action takes out of the market data of a symbol, if it does. */
  function Finalized(s: Paper, e: Action, x: string): Option<Candle> {
    var active := AggOf(s.mk.aggs, x).active;
    if active.None? then None
    else if e.BarArrives? && e.symbol == x && e.bar.close > 0.0 && Bucket(e.bar.sec) > active.value.sec then active
    else if e.LastCandle? && e.symbol == x then active
    else None
  }

  function Grown(log: seq<Candle>, c: Option<Candle>): seq<Candle> {
    if c.Some? then log + [c.value] else log
  }

  /** A candle finalized for a symbol closes its position exactly if it touches stop or target and the
      write commits: at the level, on that candle, the stop before the target. */
  lemma CandleClosesExactlyOnTouch(cfg: PaperConfig, s: Paper, e: Action, x: string)
    requires Committing(s, e) && x in s.memory && Finalized(s, e, x).Some?
    ensures var s', p, c := PaperStep(cfg, s, e), s.memory[x], Finalized(s, e, x).value;
            && (s'.hand.Closing? <==> Touches(p, c) && e.w.Commits?)
            && (s'.hand.Closing? ==> s'.hand.t.pos == p && LeavesOn(s'.hand.t, c))
            && s'.memory == s.memory
  {
    ExitsExactlyOnTouch(cfg.trading, s.memory[x], Finalized(s, e, x).value);
  }

  // ---------------------------------------------------------------- logs

  lemma LogsGrow(cfg: PaperConfig, s: Paper, e: Action, x: string)
    requires Committing(s, e)
    ensures LogOf(PaperStep(cfg, s, e).mk.aggs, x) == Grown(LogOf(s.mk.aggs, x), Finalized(s, e, x))
  {
    match e
    case BarArrives(symbol, bar, w) => BarGrowsLog(cfg, s, symbol, bar, w, x);
    case LastCandle(symbol, w) => CandleGrowsLog(cfg, s, symbol, w, x);
    case Enter(_, _, _, _, _, _) => assert PaperStep(cfg, s, e).mk == s.mk;
    case _ =>
  }

  lemma CandleGrowsLog(cfg: PaperConfig, s: Paper, symbol: string, w: Write, x: string)
    requires s.hand.Free?
    ensures LogOf(TakeCandle(cfg, s, symbol, w).mk.aggs, x) ==
            Grown(LogOf(s.mk.aggs, x), Finalized(s, LastCandle(symbol, w), x))
  {
    assert TakeCandle(cfg, s, symbol, w).mk == Popped(s.mk, symbol);
  }

  lemma BarGrowsLog(cfg: PaperConfig, s: Paper, symbol: string, bar: Bar, w: Write, x: string)
    requires s.hand.Free?
    ensures LogOf(BarCommit(cfg, s, symbol, bar, w).mk.aggs, x) ==
            Grown(LogOf(s.mk.aggs, x), Finalized(s, BarArrives(symbol, bar, w), x))
  {
    CandleGrowsLog(cfg, s, symbol, w, x);
  }

  /** How many candles of a symbol were finalized before its present position was taken, in this process. */
  ghost function BornAt(cfg: PaperConfig, es: seq<Action>, x: string): nat {
    if |es| == 0 || es[|es| - 1].Crash? then 0
    else
      var before, s, e := es[..|es| - 1], PaperRun(cfg, es[..|es| - 1]), es[|es| - 1];
      var s' := PaperStep(cfg, s, e);
      if Committing(s, e) && s'.hand.Opening? && s'.hand.p.symbol == x then |LogOf(s'.mk.aggs, x)|
      else BornAt(cfg, before, x)
  }

  /** No exit write of the run raised. */
  ghost predicate ExitsCommit(es: seq<Action>) {
    forall k :: 0 <= k < |es| && (es[k].BarArrives? || es[k].LastCandle?) ==> es[k].w.Commits?
  }

  ghost predicate HeldUntouched(s: Paper, x: string, born: nat) {
    && born <= |LogOf(s.mk.aggs, x)|
    && (x in Pending(s) ==>
          && Pending(s)[x].symbol == x
          && Untouched(Pending(s)[x], LogOf(s.mk.aggs, x), born, |LogOf(s.mk.aggs, x)|))
  }

  lemma {:induction false} LoadedByOwnSymbol(db: Rows, order: seq<Id>, x: string)
    ensures x in Load(db, order) ==> Load(db, order)[x].symbol == x
  {
    if |order| > 0 { LoadedByOwnSymbol(db, order[..|order| - 1], x); }
  }

  lemma ChangeKeepsUntouched(cfg: PaperConfig, s: Paper, e: Action, x: string, born: nat)
    requires Committing(s, e) && HeldUntouched(s, x, born)
    requires e.BarArrives? || e.LastCandle? ==> e.w.Commits?
    ensures var s' := PaperStep(cfg, s, e);
            if s'.hand.Opening? && s'.hand.p.symbol == x then HeldUntouched(s', x, |LogOf(s'.mk.aggs, x)|)
            else HeldUntouched(s', x, born)
  {
    LogsGrow(cfg, s, e, x);
    StepShape(cfg, s, e);
    if Finalized(s, e, x).Some? {
      if x in s.memory { CandleClosesExactlyOnTouch(cfg, s, e, x); }
    } else if e.ClockTurns? && x in s.memory {
      FundingKeepsUntouched(cfg, s, e, x, born);
    }
  }

  lemma FundingKeepsUntouched(cfg: PaperConfig, s: Paper, e: Action, x: string, born: nat)
    requires Committing(s, e) && HeldUntouched(s, x, born) && e.ClockTurns? && x in s.memory
    ensures HeldUntouched(PaperStep(cfg, s, e), x, born)
  {
  }

  /** Over every run without a raised exit write no position in memory has been touched since it was
      taken, or loaded by its process. */
  lemma {:induction false} OpenPositionsAreUntouched(cfg: PaperConfig, es: seq<Action>, x: string)
    requires ExitsCommit(es)
    ensures HeldUntouched(PaperRun(cfg, es), x, BornAt(cfg, es, x))
  {
    if |es| > 0 {
      var n := |es| - 1;
      OpenPositionsAreUntouched(cfg, es[..n], x);
      var s, e := PaperRun(cfg, es[..n]), es[n];
      if Committing(s, e) { ChangeKeepsUntouched(cfg, s, e, x, BornAt(cfg, es[..n], x)); }
      if e.Crash? { LoadedByOwnSymbol(s.disk, e.order, x); }
    }
  }

  /** So every stop or target exit of such a run is on the first touching candle since the entry. */
  lemma PaperClosesAtFirstTouch(cfg: PaperConfig, es: seq<Action>, e: Action, x: string)
    requires ExitsCommit(es) && Committing(PaperRun(cfg, es), e) && x in PaperRun(cfg, es).memory
    requires Finalized(PaperRun(cfg, es), e, x).Some? && e.w.Commits?
    ensures var s, s' := PaperRun(cfg, es), PaperStep(cfg, PaperRun(cfg, es), e);
            var p, c, log := s.memory[x], Finalized(s, e, x).value, LogOf(s.mk.aggs, x);
            && Untouched(p, log, BornAt(cfg, es, x), |log|)
            && LogOf(s'.mk.aggs, x) == log + [c]
            && (if Touches(p, c) then s'.hand.Closing? && s'.hand.t.pos == p && LeavesOn(s'.hand.t, c)
                else s'.hand.Free?)
  {
    OpenPositionsAreUntouched(cfg, es, x);
    CandleClosesExactlyOnTouch(cfg, PaperRun(cfg, es), e, x);
    LogsGrow(cfg, PaperRun(cfg, es), e, x);
    StepShape(cfg, PaperRun(cfg, es), e);
  }
}
