/** Paper positions in memory and in the database.

  Every position write is committed before memory changes. The steps are the atomic stretches between
  which the process may die: a commit is one step, the change of memory that follows it the next. A
  write may raise: then it leaves no trace, or, if only its commit raised, a statement in the open
  transaction that the next commit carries along.
 */
module PaperSpec {
  import opened Basics
  import opened Candles
  import opened PaperMath
  import opened SimSpec
  import Funding

  /** trading: the settings that the manager shares with the simulator. */
  datatype PaperConfig = PaperConfig(trading: Config, staleMs: int, minCandles: nat)

  /** A position id is built from symbol and signal time. */
  datatype Id = Id(symbol: string, ts: int)

  function IdOf(p: Position): Id { Id(p.symbol, p.entryTs) }

  /** The columns that a close writes. */
  datatype Exit = Exit(ts: int, price: real, reason: ExitReason, fee: real, gross: real, net: real, r: real)

  function ExitOf(t: Trade): Exit {
    Exit(t.exitTs, t.exitPrice, t.reason, t.feePaid - t.pos.entryFee, t.pnlGross, t.pnlNet, t.r)
  }

  /** A row is OPEN until it has an exit. */
  datatype Row = Row(pos: Position, exit: Option<Exit>)

  type Rows = map<Id, Row>
  type Memory = map<string, Position>

  /** INSERT OR IGNORE. */
  function InsertRow(db: Rows, p: Position): Rows {
    if IdOf(p) in db then db else db[IdOf(p) := Row(p, None)]
  }

  /** UPDATE of the row with this id if it is OPEN. */
  function CloseRow(db: Rows, t: Trade): Rows {
    var id := IdOf(t.pos);
    if id in db && db[id].exit.None? then db[id := db[id].(exit := Some(ExitOf(t)))] else db
  }

  /** How a position write ends: it is committed, it raises before anything has happened, or its commit
      raises and the statement stays in the open transaction. */
  datatype Write = Commits | Fails | Sticks

  /** A committed write that memory does not show yet. */
  datatype Hand = Free | Opening(p: Position) | Closing(t: Trade)

  datatype Refused =
    | StalePrice | InvalidPrice | SymbolFull | GlobalLimit
    | AtrNotReady | InvalidDistance | InvalidQty | DbWriteFailed

  /** What the market data has left in memory. */
  datatype Market = Market(
    aggs: map<string, Agg>, clocks: map<string, Funding.Clock>, rates: map<string, real>,
    prices: map<string, real>, monos: map<string, int>)

  /** db: the table as the connection sees it; disk: as it was last committed. */
  datatype Paper = Paper(
    memory: Memory, db: Rows, disk: Rows, hand: Hand, mk: Market, realized: real, trades: seq<Trade>,
    refused: Option<Refused>)

  /** A process as it starts, before it has read the database. */
  function Boot(cfg: PaperConfig, disk: Rows): Paper {
    Paper(map[], disk, disk, Free, Market(map[], map[], map[], map[], map[]), cfg.trading.initialEquity, [], None)
  }

  // ---------------------------------------------------------------- equity

  ghost function AnyKey(m: Memory): string
    requires m != map[]
  {
    var x :| x in m;
    x
  }

  ghost function SumOpen(m: Memory, prices: map<string, real>): real
    decreases |m|
  {
    if m == map[] then 0.0
    else
      var x := AnyKey(m);
      Mtm(m[x], prices) + SumOpen(m - {x}, prices)
  }

  /** The order in which the positions are visited does not matter. */
  lemma {:induction false} SumSplits(m: Memory, prices: map<string, real>, x: string)
    requires x in m
    ensures SumOpen(m, prices) == Mtm(m[x], prices) + SumOpen(m - {x}, prices)
    decreases |m|
  {
    var y := AnyKey(m);
    if y != x {
      SumSplits(m - {y}, prices, x);
      SumSplits(m - {x}, prices, y);
      assert m - {y} - {x} == m - {x} - {y};
    }
  }

  ghost function EquityOf(s: Paper): real {
    s.realized + SumOpen(s.memory, s.mk.prices)
  }

  // ---------------------------------------------------------------- entries

  /** The checks before the lock, and the limits. */
  function Barred(cfg: PaperConfig, s: Paper, symbol: string, price: real, mono: int): Option<Refused> {
    if symbol !in s.mk.monos || mono - s.mk.monos[symbol] > cfg.staleMs then Some(StalePrice)
    else if price <= 0.0 then Some(InvalidPrice)
    else if symbol in s.memory then Some(SymbolFull)
    else if |s.memory| >= cfg.trading.maxGlobal then Some(GlobalLimit)
    else if cfg.trading.maxPerSymbol < 1 then Some(SymbolFull)
    else None
  }

  datatype Plan = Go(p: Position) | No(why: Refused)

  function PlanEntry(
    cfg: Config, equity: real, atr: Option<real>, symbol: string, dir: Direction, ts: int, price: real): Plan
  {
    if atr.None? || atr.value <= 0.0 then No(AtrNotReady)
    else
      var fill := EntryFill(price, dir, cfg.slippageBps);
      var d := SlDistance(atr.value, fill, cfg.slAtr, cfg.maxSl, cfg.minSl);
      var qty := Qty(equity, cfg.riskPct, d);
      if fill <= 0.0 then No(InvalidPrice)
      else if d <= 0.0 then No(InvalidDistance)
      else if qty <= 0.0 then No(InvalidQty)
      else Go(Position(symbol, dir, ts, Bucket(ts / 1000), fill, qty, SlPrice(fill, d, dir),
                       TpPrice(fill, d, cfg.tpR, dir), EntryFee(fill, qty, cfg.feeTaker), 0.0))
  }

  /** A position write that takes the table to these rows. */
  function Written(s: Paper, rows: Rows, w: Write): Paper {
    match w
    case Commits => s.(db := rows, disk := rows)
    case Fails => s
    case Sticks => s.(db := rows)
  }

  ghost function PlanOf(cfg: PaperConfig, s: Paper, symbol: string, dir: Direction, ts: int, price: real): Plan {
    var atr := Atr(LogOf(s.mk.aggs, symbol), cfg.trading.atrPeriod);
    PlanEntry(cfg.trading, EquityOf(s), atr, symbol, dir, ts, price)
  }

  ghost function EntryCommit(
    cfg: PaperConfig, s: Paper, symbol: string, dir: Direction, ts: int, price: real, mono: int, w: Write): Paper
  {
    var barred := Barred(cfg, s, symbol, price, mono);
    if barred.Some? then s.(refused := barred)
    else
      var plan := PlanOf(cfg, s, symbol, dir, ts, price);
      if plan.No? then s.(refused := Some(plan.why))
      else OpenCommit(s, plan.p, w)
  }

  function OpenCommit(s: Paper, p: Position, w: Write): Paper {
    var s1 := Written(s, InsertRow(s.db, p), w);
    if w.Commits? then s1.(refused := None, hand := Opening(p)) else s1.(refused := Some(DbWriteFailed))
  }

  // ---------------------------------------------------------------- exits

  function CloseCommit(
    cfg: PaperConfig, s: Paper, symbol: string, ts: int, price: real, reason: ExitReason, w: Write): Paper
  {
    if symbol !in s.memory then s
    else
      var t := MakeTrade(cfg.trading, s.memory[symbol], ts, price, reason);
      var s1 := Written(s, CloseRow(s.db, t), w);
      if w.Commits? then s1.(hand := Closing(t)) else s1
  }

  function ExitCommit(cfg: PaperConfig, s: Paper, symbol: string, c: Candle, w: Write): Paper {
    if symbol !in s.memory then s
    else
      var hit := ExitOn(s.memory[symbol], c);
      if hit.None? then s
      else CloseCommit(cfg, s, symbol, c.sec * 1000, LevelOf(s.memory[symbol], hit.value), hit.value, w)
  }

  /** The active candle of the symbol goes into its log. */
  function Popped(mk: Market, symbol: string): Market {
    var a := AggOf(mk.aggs, symbol);
    if a.active.Some? then mk.(aggs := mk.aggs[symbol := Agg(None, a.done + [a.active.value])]) else mk
  }

  function Fed(mk: Market, symbol: string, bar: Bar): Market {
    mk.(aggs := mk.aggs[symbol := Feed(AggOf(mk.aggs, symbol), bar)])
  }

  /** Takes the active candle of the symbol and closes on it. */
  function TakeCandle(cfg: PaperConfig, s: Paper, symbol: string, w: Write): Paper {
    var a := AggOf(s.mk.aggs, symbol);
    if a.active.None? then s
    else ExitCommit(cfg, s.(mk := Popped(s.mk, symbol)), symbol, a.active.value, w)
  }

  function BarCommit(cfg: PaperConfig, s: Paper, symbol: string, bar: Bar, w: Write): Paper {
    if bar.close <= 0.0 then s
    else
      var a := AggOf(s.mk.aggs, symbol);
      var s1 := if a.active.Some? && Bucket(bar.sec) > a.active.value.sec then TakeCandle(cfg, s, symbol, w) else s;
      s1.(mk := Fed(s1.mk, symbol, bar))
  }

  /** Funding paid times over. */
  function Funded(cfg: PaperConfig, s: Paper, symbol: string, times: int): Paper {
    if cfg.trading.includeFunding && symbol in s.memory
    then s.(memory := s.memory[symbol := Paid(s.memory[symbol], RateOf(s.mk.rates, symbol), times)])
    else s
  }

  function Clocked(mk: Market, symbol: string, ts: int): Market {
    mk.(clocks := mk.clocks[symbol := Funding.Tick(ClockOf(mk.clocks, symbol), ts)])
  }

  function FundingTurn(cfg: PaperConfig, s: Paper, symbol: string, ts: int): Paper {
    var c := ClockOf(s.mk.clocks, symbol);
    var c' := Funding.Tick(c, ts);
    Funded(cfg, s, symbol, Fired(c') - Fired(c)).(mk := Clocked(s.mk, symbol, ts))
  }

  function Priced(mk: Market, symbol: string, close: real, mono: int): Market {
    mk.(prices := mk.prices[symbol := close],
        monos := if symbol in mk.monos then mk.monos else mk.monos[symbol := mono])
  }

  /** The rest of a bar: funding and the last price. */
  function ClockTurn(cfg: PaperConfig, s: Paper, symbol: string, ts: int, close: real, mono: int): Paper {
    if close <= 0.0 then s
    else
      var s1 := FundingTurn(cfg, s, symbol, ts);
      s1.(mk := Priced(s1.mk, symbol, close, mono))
  }

  /** Memory follows the commit. */
  function Settle(s: Paper): Paper {
    match s.hand
    case Free => s
    case Opening(p) => s.(hand := Free, memory := s.memory[p.symbol := p])
    case Closing(t) =>
      s.(hand := Free, memory := s.memory - {t.pos.symbol}, trades := s.trades + [t], realized := s.realized + t.pnlNet)
  }

  // ---------------------------------------------------------------- crash and startup

  /** The OPEN rows of a listing, loaded one by one. */
  function Load(db: Rows, order: seq<Id>): Memory {
    if |order| == 0 then map[]
    else
      var id, m := order[|order| - 1], Load(db, order[..|order| - 1]);
      if id in db && db[id].exit.None? then m[db[id].pos.symbol := db[id].pos] else m
  }

  /** A new process over the old database. */
  function Restart(cfg: PaperConfig, s: Paper, order: seq<Id>, readOk: bool): Paper {
    Boot(cfg, s.disk).(memory := if readOk then Load(s.disk, order) else map[])
  }

  // ---------------------------------------------------------------- runs

  datatype Action =
    | BarArrives(symbol: string, bar: Bar, w: Write)
    | ClockTurns(symbol: string, ts: int, close: real, mono: int)
    | PriceTick(symbol: string, price: real, mono: int)
    | FundingRate(symbol: string, rate: real)
    | Enter(symbol: string, dir: Direction, ts: int, price: real, mono: int, w: Write)
    | LastCandle(symbol: string, w: Write)
    | LastClose(symbol: string, ts: int, given: map<string, real>, w: Write)
    | AuditCommits                 // any other commit on the connection: audit rows, mostly
    | MemoryFollows
    | Crash(order: seq<Id>, readOk: bool)

  /** While a commit is in hand the process can only go on to memory, or die. */
  ghost function PaperStep(cfg: PaperConfig, s: Paper, e: Action): Paper {
    if e.Crash? then Restart(cfg, s, e.order, e.readOk)
    else if e.MemoryFollows? then Settle(s)
    else if !s.hand.Free? then s
    else
      match e
      case BarArrives(symbol, bar, w) => BarCommit(cfg, s, symbol, bar, w)
      case ClockTurns(symbol, ts, close, mono) => ClockTurn(cfg, s, symbol, ts, close, mono)
      case PriceTick(symbol, price, mono) =>
        if price <= 0.0 then s
        else s.(mk := s.mk.(prices := s.mk.prices[symbol := price], monos := s.mk.monos[symbol := mono]))
      case AuditCommits => s.(disk := s.db)
      case FundingRate(symbol, rate) => s.(mk := s.mk.(rates := s.mk.rates[symbol := rate]))
      case Enter(symbol, dir, ts, price, mono, w) => EntryCommit(cfg, s, symbol, dir, ts, price, mono, w)
      case LastCandle(symbol, w) => TakeCandle(cfg, s, symbol, w)
      case LastClose(symbol, ts, given, w) =>
        if symbol !in s.memory then s
        else CloseCommit(cfg, s, symbol, ts, LastPrice(s.memory[symbol], given, s.mk.prices), EndOfRun, w)
  }

  ghost function PaperRun(cfg: PaperConfig, es: seq<Action>): Paper {
    if |es| == 0 then Boot(cfg, map[]) else PaperStep(cfg, PaperRun(cfg, es[..|es| - 1]), es[|es| - 1])
  }
}
