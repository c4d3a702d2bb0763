/** The position simulator as a state machine: candles, exits, funding, entries and the ledger. */
module SimSpec {
  import opened Basics
  import opened Candles
  import opened PaperMath
  import Funding

  datatype Config = Config(
    initialEquity: real, riskPct: real, atrPeriod: int, slAtr: real, tpR: real, maxSl: real, minSl: real,
    slippageBps: real, feeTaker: real, feeMaker: real, includeFunding: bool, maxPerSymbol: int, maxGlobal: int)

  datatype Position = Position(
    symbol: string, dir: Direction, entryTs: int, entryBucket: int, entryPrice: real, qty: real,
    slPrice: real, tpPrice: real, entryFee: real, fundingPaid: real)

  datatype Trade = Trade(
    pos: Position, exitTs: int, exitPrice: real, reason: ExitReason,
    feePaid: real, pnlGross: real, pnlNet: real, r: real)

  /** Positions and trades with their history: the equity at entry, and how many candles of the symbol
      had been finalized at entry and at exit. */
  datatype Open = Open(pos: Position, equity: real, bornAt: nat)
  datatype Closed = Closed(trade: Trade, equity: real, bornAt: nat, closedAt: nat)

  /** open: in order of entry, at most one per symbol. */
  datatype Book = Book(open: seq<Open>, trades: seq<Closed>, realized: real)

  datatype Reject = SymbolTaken | GlobalFull

  datatype State = State(
    book: Book, aggs: map<string, Agg>, clocks: map<string, Funding.Clock>,
    rates: map<string, real>, prices: map<string, real>, rejected: Option<Reject>)

  function Start(cfg: Config): State {
    State(Book([], [], cfg.initialEquity), map[], map[], map[], map[], None)
  }

  // ---------------------------------------------------------------- exits

  function HitsSl(p: Position, c: Candle): bool {
    if p.dir.Long? then c.low <= p.slPrice else c.high >= p.slPrice
  }

  function HitsTp(p: Position, c: Candle): bool {
    if p.dir.Long? then c.high >= p.tpPrice else c.low <= p.tpPrice
  }

  /** Candles up to the bucket of the entry are skipped; the stop comes before the target. */
  function ExitOn(p: Position, c: Candle): Option<ExitReason> {
    if c.sec <= p.entryBucket then None
    else if HitsSl(p, c) then Some(StopLoss)
    else if HitsTp(p, c) then Some(TakeProfit)
    else None
  }

  function LevelOf(p: Position, reason: ExitReason): real {
    if reason.StopLoss? then p.slPrice else p.tpPrice
  }

  function MakeTrade(cfg: Config, p: Position, ts: int, price: real, reason: ExitReason): Trade {
    var gross := PnlGross(p.entryPrice, price, p.qty, p.dir);
    var fees := p.entryFee + ExitFee(price, p.qty, cfg.feeTaker, cfg.feeMaker, reason);
    Trade(p, ts, price, reason, fees, gross, gross - fees - p.fundingPaid,
          RMultiple(p.entryPrice, price, p.slPrice, p.dir))
  }

  function IndexOf(open: seq<Open>, symbol: string): (i: nat)
    ensures i <= |open|
    ensures i < |open| ==> open[i].pos.symbol == symbol
    ensures forall j :: 0 <= j < i ==> open[j].pos.symbol != symbol
  {
    if |open| == 0 || open[0].pos.symbol == symbol then 0 else 1 + IndexOf(open[1..], symbol)
  }

  function Without(open: seq<Open>, i: nat): seq<Open>
    requires i < |open|
  {
    open[..i] + open[i + 1..]
  }

  function CloseAt(cfg: Config, b: Book, i: nat, ts: int, price: real, reason: ExitReason, at: nat): Book
    requires i < |b.open|
  {
    var t := MakeTrade(cfg, b.open[i].pos, ts, price, reason);
    Book(Without(b.open, i), b.trades + [Closed(t, b.open[i].equity, b.open[i].bornAt, at)], b.realized + t.pnlNet)
  }

  function CheckExits(cfg: Config, b: Book, symbol: string, c: Candle, at: nat): Book {
    var i := IndexOf(b.open, symbol);
    if i == |b.open| then b
    else
      var hit := ExitOn(b.open[i].pos, c);
      if hit.None? then b else CloseAt(cfg, b, i, c.sec * 1000, LevelOf(b.open[i].pos, hit.value), hit.value, at)
  }

  // ---------------------------------------------------------------- feeds

  function AggOf(aggs: map<string, Agg>, symbol: string): Agg {
    if symbol in aggs then aggs[symbol] else NO_CANDLES
  }

  /** All candles of the symbol finalized so far. */
  function LogOf(aggs: map<string, Agg>, symbol: string): seq<Candle> {
    AggOf(aggs, symbol).done
  }

  function FinalizeActive(cfg: Config, s: State, symbol: string): State {
    var a := AggOf(s.aggs, symbol);
    if a.active.None? then s
    else
      s.(aggs := s.aggs[symbol := Agg(None, a.done + [a.active.value])],
         book := CheckExits(cfg, s.book, symbol, a.active.value, |a.done|))
  }

  function CandlePart(cfg: Config, s: State, symbol: string, bar: Bar): State {
    var a := AggOf(s.aggs, symbol);
    var s1 := if a.active.Some? && Bucket(bar.sec) > a.active.value.sec then FinalizeActive(cfg, s, symbol) else s;
    s1.(aggs := s1.aggs[symbol := Feed(AggOf(s1.aggs, symbol), bar)])
  }

  function ClockOf(clocks: map<string, Funding.Clock>, symbol: string): Funding.Clock {
    if symbol in clocks then clocks[symbol] else Funding.Idle
  }

  function Fired(c: Funding.Clock): nat {
    if c.Idle? then 0 else |c.fired|
  }

  function RateOf(rates: map<string, real>, symbol: string): real {
    if symbol in rates then rates[symbol] else 0.0
  }

  function Paid(p: Position, rate: real, times: int): Position {
    p.(fundingPaid := p.fundingPaid + times as real * FundingDelta(rate, p.entryPrice * p.qty, p.dir))
  }

  function PayFunding(b: Book, symbol: string, rate: real, times: int): Book {
    var i := IndexOf(b.open, symbol);
    if i == |b.open| then b
    else b.(open := b.open[i := b.open[i].(pos := Paid(b.open[i].pos, rate, times))])
  }

  /** Funding is paid once for every boundary that the clock of the symbol passes. */
  function FundingPart(cfg: Config, s: State, symbol: string, ts: int): State {
    var c := ClockOf(s.clocks, symbol);
    var c' := Funding.Tick(c, ts);
    s.(clocks := s.clocks[symbol := c'],
       book := if cfg.includeFunding then PayFunding(s.book, symbol, RateOf(s.rates, symbol), Fired(c') - Fired(c))
               else s.book)
  }

  function OnOhlcv(cfg: Config, s: State, symbol: string, bar: Bar, ts: int): State {
    var s' := FundingPart(cfg, CandlePart(cfg, s, symbol, bar), symbol, ts);
    s'.(prices := s'.prices[symbol := bar.close])
  }

  // ---------------------------------------------------------------- equity and entries

  /** Marked to the last price. The entry fee is not part of it until the position closes, although
      the header of the source lists it. */
  function Mtm(p: Position, prices: map<string, real>): real {
    if p.symbol in prices then PnlGross(p.entryPrice, prices[p.symbol], p.qty, p.dir) - p.fundingPaid else 0.0
  }

  function SumMtm(open: seq<Open>, prices: map<string, real>): real {
    if |open| == 0 then 0.0 else SumMtm(open[..|open| - 1], prices) + Mtm(open[|open| - 1].pos, prices)
  }

  function Equity(b: Book, prices: map<string, real>): real {
    b.realized + SumMtm(b.open, prices)
  }

  function Refusal(cfg: Config, b: Book, symbol: string): Option<Reject> {
    if IndexOf(b.open, symbol) < |b.open| then Some(SymbolTaken)
    else if |b.open| >= cfg.maxGlobal then Some(GlobalFull)
    else if cfg.maxPerSymbol < 1 then Some(SymbolTaken)
    else None
  }

  function NewPosition(
    cfg: Config, equity: real, atr: Option<real>, symbol: string, dir: Direction, ts: int, close: real)
    : Option<Position>
  {
    if atr.None? then None
    else PlanAt(cfg, equity, SlDistance(atr.value, close, cfg.slAtr, cfg.maxSl, cfg.minSl), symbol, dir, ts, close)
  }

  function PlanAt(cfg: Config, equity: real, d: real, symbol: string, dir: Direction, ts: int, close: real)
    : Option<Position>
  {
    if d <= 0.0 || equity * cfg.riskPct / d <= 0.0 then None
    else Some(PositionAt(cfg, equity, symbol, dir, ts, EntryFill(close, dir, cfg.slippageBps), d))
  }

  /** The position entered at a fill with a given stop distance. */
  function PositionAt(
    cfg: Config, equity: real, symbol: string, dir: Direction, ts: int, fill: real, d: real): Position
    requires d > 0.0
  {
    var qty := equity * cfg.riskPct / d;
    Position(symbol, dir, ts, Bucket(ts / 1000), fill, qty, SlPrice(fill, d, dir), TpPrice(fill, d, cfg.tpR, dir),
             EntryFee(fill, qty, cfg.feeTaker), 0.0)
  }

  function OnEntry(cfg: Config, s: State, symbol: string, dir: Direction, ts: int, close: real): State {
    var refusal := Refusal(cfg, s.book, symbol);
    if refusal.Some? then s.(rejected := refusal)
    else
      var log := LogOf(s.aggs, symbol);
      var equity := Equity(s.book, s.prices);
      var p := NewPosition(cfg, equity, Atr(log, cfg.atrPeriod), symbol, dir, ts, close);
      s.(rejected := None,
         book := if p.None? then s.book else s.book.(open := s.book.open + [Open(p.value, equity, |log|)]))
  }

  // ---------------------------------------------------------------- the end of a run

  function FinalizeCandles(cfg: Config, s: State, order: seq<string>): State {
    if |order| == 0 then s
    else FinalizeActive(cfg, FinalizeCandles(cfg, s, order[..|order| - 1]), order[|order| - 1])
  }

  function LastPrice(p: Position, given: map<string, real>, prices: map<string, real>): real {
    if p.symbol in given && given[p.symbol] > 0.0 then given[p.symbol]
    else if p.symbol in prices then prices[p.symbol]
    else p.entryPrice
  }

  function CloseOldest(cfg: Config, s: State, ts: int, given: map<string, real>): State
    requires |s.book.open| > 0
  {
    var p := s.book.open[0].pos;
    s.(book := CloseAt(cfg, s.book, 0, ts, LastPrice(p, given, s.prices), EndOfRun, |LogOf(s.aggs, p.symbol)|))
  }

  function CloseAll(cfg: Config, s: State, ts: int, given: map<string, real>): State
    decreases |s.book.open|
  {
    if |s.book.open| == 0 then s else CloseAll(cfg, CloseOldest(cfg, s, ts, given), ts, given)
  }

  // ---------------------------------------------------------------- runs

  datatype Event =
    | Ohlcv(symbol: string, bar: Bar, ts: int)
    | Ticker(symbol: string, rate: real)
    | Entry(symbol: string, dir: Direction, ts: int, close: real)
    | Finalize(order: seq<string>, ts: int, given: map<string, real>)   // order: of the active candles

  function Step(cfg: Config, s: State, e: Event): State {
    match e
    case Ohlcv(symbol, bar, ts) => OnOhlcv(cfg, s, symbol, bar, ts)
    case Ticker(symbol, rate) => s.(rates := s.rates[symbol := rate])
    case Entry(symbol, dir, ts, close) => OnEntry(cfg, s, symbol, dir, ts, close)
    case Finalize(order, ts, given) => CloseAll(cfg, FinalizeCandles(cfg, s, order), ts, given)
  }

  function Run(cfg: Config, es: seq<Event>): State {
    if |es| == 0 then Start(cfg) else Step(cfg, Run(cfg, es[..|es| - 1]), es[|es| - 1])
  }
}
