/** Memory and database of the paper position manager agree over every run, crashes included. */
module PaperRuns {
  import opened Basics
  import opened Candles
  import opened PaperMath
  import opened SimSpec
  import opened PaperSpec
  import opened PaperAgreement
  import Funding

  // ---------------------------------------------------------------- the invariant

  /** Memory as it is once it has followed the commit in hand. */
  function Pending(s: Paper): Memory {
    match s.hand
    case Free => s.memory
    case Opening(p) => s.memory[p.symbol := p]
    case Closing(t) => s.memory - {t.pos.symbol}
  }

  ghost predicate NoFunding(m: Memory) {
    forall x :: x in m ==> m[x].fundingPaid == 0.0
  }

  ghost predicate MemoryOk(cfg: PaperConfig, m: Memory, db: Rows) {
    && Agree(m, db)
    && |m| <= (if cfg.trading.maxGlobal > 0 then cfg.trading.maxGlobal else 0)
    && (!cfg.trading.includeFunding ==> NoFunding(m))
  }

  /** Disk agrees with what memory is, or is about to be; only statements stuck before their commit tell
      the table from the disk. */
  ghost predicate Sound(cfg: PaperConfig, s: Paper) {
    && MemoryOk(cfg, Pending(s), s.disk) && Ahead(s.disk, s.db)
    && (!s.hand.Free? ==> s.db == s.disk)
  }

  ghost predicate Committing(s: Paper, e: Action) {
    s.hand.Free? && !e.Crash? && !e.MemoryFollows?
  }

  /** What a step may carry along of statements stuck before it: a committed entry at most its own row, a
      committed close at most an earlier close of its own position, any other commit nothing. */
  ghost predicate CarriesNothing(s: Paper, s': Paper, e: Action) {
    match s'.hand
    case Opening(p) => OnlyAhead(s.disk, s.db, IdOf(p)) && (IdOf(p) in s.db ==> s.db[IdOf(p)] == Row(p, None))
    case Closing(t) => OnlyAhead(s.disk, s.db, IdOf(t.pos))
    case Free => e.AuditCommits? ==> s.db == s.disk
  }

  /** The rows that a startup loads: none if it cannot read the table. */
  function Listing(order: seq<Id>, readOk: bool): seq<Id> {
    if readOk then order else []
  }

  /** What agreement needs of an action: a startup loads every OPEN row, and a commit carries nothing
      along. */
  ghost predicate Proper(cfg: PaperConfig, s: Paper, e: Action) {
    && (e.Crash? ==> Lists(Listing(e.order, e.readOk), s.disk))
    && (Committing(s, e) ==> CarriesNothing(s, PaperStep(cfg, s, e), e))
  }

  ghost predicate ProperRun(cfg: PaperConfig, es: seq<Action>) {
    |es| > 0 ==> ProperRun(cfg, es[..|es| - 1]) && Proper(cfg, PaperRun(cfg, es[..|es| - 1]), es[|es| - 1])
  }

  // ---------------------------------------------------------------- what an action does

  ghost predicate SameLedger(s: Paper, s': Paper) {
    s'.trades == s.trades && s'.realized == s.realized
  }

  /** Neither positions nor rows change. */
  ghost predicate Quiet(s: Paper, s': Paper) {
    SameLedger(s, s') && s'.hand.Free? && s'.db == s.db && s'.disk == s.disk && s'.memory == s.memory
  }

  ghost predicate Pays(s: Paper, s': Paper, x: string, rate: real, times: int) {
    && SameLedger(s, s') && s'.hand.Free? && s'.db == s.db && s'.disk == s.disk
    && x in s.memory && s'.memory == s.memory[x := Paid(s.memory[x], rate, times)]
  }

  ghost predicate AuditsOnly(s: Paper, s': Paper) {
    SameLedger(s, s') && s'.hand.Free? && s'.db == s.db && s'.disk == s.db && s'.memory == s.memory
  }

  /** A row is inserted for a position of a symbol that has none, within the limit. */
  ghost predicate Opens(cfg: PaperConfig, s: Paper, s': Paper, id: Id) {
    && SameLedger(s, s') && s'.hand.Opening? && s'.memory == s.memory
    && s'.db == InsertRow(s.db, s'.hand.p) && s'.disk == s'.db
    && IdOf(s'.hand.p) == id && s'.hand.p == Base(s'.hand.p)
    && id.symbol !in s.memory && |s.memory| < cfg.trading.maxGlobal
  }

  /** The row of a position in memory is closed. */
  ghost predicate Closes(s: Paper, s': Paper, x: string) {
    && SameLedger(s, s') && s'.hand.Closing? && s'.memory == s.memory
    && x in s.memory && s'.hand.t.pos == s.memory[x]
    && s'.db == CloseRow(s.db, s'.hand.t) && s'.disk == s'.db
  }

  /** Statements that stay uncommitted: memory and disk are as they were. */
  ghost predicate StuckOpen(s: Paper, s': Paper, id: Id, p: Position) {
    && SameLedger(s, s') && s'.hand.Free? && s'.memory == s.memory && s'.disk == s.disk
    && s'.db == InsertRow(s.db, p) && IdOf(p) == id && id.symbol !in s.memory
  }

  ghost predicate StuckClose(s: Paper, s': Paper, x: string, t: Trade) {
    && SameLedger(s, s') && s'.hand.Free? && s'.memory == s.memory && s'.disk == s.disk
    && s'.db == CloseRow(s.db, t) && x in s.memory && t.pos == s.memory[x]
  }

  lemma PlanShape(cfg: Config, equity: real, atr: Option<real>, symbol: string, dir: Direction, ts: int, price: real)
    ensures var plan := PlanEntry(cfg, equity, atr, symbol, dir, ts, price);
            plan.Go? ==> IdOf(plan.p) == Id(symbol, ts) && plan.p == Base(plan.p)
  {}

  ghost predicate EntryEnds(cfg: PaperConfig, s: Paper, s': Paper, id: Id, w: Write) {
    || Quiet(s, s')
    || (w.Commits? && Opens(cfg, s, s', id))
    || (w.Sticks? && exists p :: StuckOpen(s, s', id, p))
  }

  lemma EntryShape(
    cfg: PaperConfig, s: Paper, symbol: string, dir: Direction, ts: int, price: real, mono: int, w: Write)
    requires s.hand.Free?
    ensures EntryEnds(cfg, s, EntryCommit(cfg, s, symbol, dir, ts, price, mono, w), Id(symbol, ts), w)
  {
    var s' := EntryCommit(cfg, s, symbol, dir, ts, price, mono, w);
    if Barred(cfg, s, symbol, price, mono).None? {
      var equity, atr := EquityOf(s), Atr(LogOf(s.mk.aggs, symbol), cfg.trading.atrPeriod);
      PlanShape(cfg.trading, equity, atr, symbol, dir, ts, price);
      var plan := PlanEntry(cfg.trading, equity, atr, symbol, dir, ts, price);
      if plan.Go? && w.Sticks? { assert StuckOpen(s, s', Id(symbol, ts), plan.p); }
    }
  }

  ghost predicate ExitEnds(s: Paper, s': Paper, x: string, w: Write) {
    || Quiet(s, s')
    || (w.Commits? && Closes(s, s', x))
    || (w.Sticks? && exists t :: StuckClose(s, s', x, t))
  }

  lemma CloseShape(cfg: PaperConfig, s: Paper, symbol: string, ts: int, price: real, reason: ExitReason, w: Write)
    requires s.hand.Free?
    ensures ExitEnds(s, CloseCommit(cfg, s, symbol, ts, price, reason, w), symbol, w)
  {
    if symbol in s.memory && w.Sticks? {
      var t := MakeTrade(cfg.trading, s.memory[symbol], ts, price, reason);
      assert StuckClose(s, CloseCommit(cfg, s, symbol, ts, price, reason, w), symbol, t);
    }
  }

  /** The market data does not matter to positions and rows. */
  lemma MarketIsApart(s: Paper, s1: Paper, s': Paper, x: string, w: Write)
    requires ExitEnds(s1, s', x, w) && s1.hand == s.hand && s1.memory == s.memory && s1.db == s.db && s1.disk == s.disk
    requires SameLedger(s, s1)
    ensures ExitEnds(s, s', x, w)
  {
    if w.Sticks? && !Quiet(s1, s') {
      var t :| StuckClose(s1, s', x, t);
      assert StuckClose(s, s', x, t);
    }
  }

  lemma TakeCandleShape(cfg: PaperConfig, s: Paper, symbol: string, w: Write)
    requires s.hand.Free?
    ensures ExitEnds(s, TakeCandle(cfg, s, symbol, w), symbol, w)
  {
    var a := AggOf(s.mk.aggs, symbol);
    if a.active.Some? && symbol in s.memory && ExitOn(s.memory[symbol], a.active.value).Some? {
      var reason := ExitOn(s.memory[symbol], a.active.value).value;
      var s1 := s.(mk := Popped(s.mk, symbol));
      CloseShape(cfg, s1, symbol, a.active.value.sec * 1000, LevelOf(s.memory[symbol], reason), reason, w);
      MarketIsApart(s, s1, TakeCandle(cfg, s, symbol, w), symbol, w);
    }
  }

  lemma BarShape(cfg: PaperConfig, s: Paper, symbol: string, bar: Bar, w: Write)
    requires s.hand.Free?
    ensures ExitEnds(s, BarCommit(cfg, s, symbol, bar, w), symbol, w)
  {
    TakeCandleShape(cfg, s, symbol, w);
    var s1 := TakeCandle(cfg, s, symbol, w);
    var s' := BarCommit(cfg, s, symbol, bar, w);
    if s'.db != s.db && w.Sticks? {
      var t :| StuckClose(s, s1, symbol, t);
      assert StuckClose(s, s', symbol, t);
    }
  }

  lemma ClockShape(cfg: PaperConfig, s: Paper, symbol: string, ts: int, close: real, mono: int)
    returns (rate: real, times: int)
    requires s.hand.Free?
    ensures var s' := ClockTurn(cfg, s, symbol, ts, close, mono);
            Quiet(s, s') || (cfg.trading.includeFunding && Pays(s, s', symbol, rate, times))
  {
    var c := ClockOf(s.mk.clocks, symbol);
    rate, times := RateOf(s.mk.rates, symbol), Fired(Funding.Tick(c, ts)) - Fired(c);
  }

  ghost predicate ClockEnds(cfg: PaperConfig, s: Paper, s': Paper, symbol: string) {
    Quiet(s, s') || (cfg.trading.includeFunding && exists rate, times :: Pays(s, s', symbol, rate, times))
  }

  /** Any action but a crash or the step of memory: quiet, or one change. */
  ghost predicate OneChange(cfg: PaperConfig, s: Paper, s': Paper, e: Action) {
    match e
    case ClockTurns(symbol, _, _, _) => ClockEnds(cfg, s, s', symbol)
    case Enter(symbol, _, ts, _, _, w) => EntryEnds(cfg, s, s', Id(symbol, ts), w)
    case BarArrives(symbol, _, w) => ExitEnds(s, s', symbol, w)
    case LastCandle(symbol, w) => ExitEnds(s, s', symbol, w)
    case LastClose(symbol, _, _, w) => ExitEnds(s, s', symbol, w)
    case AuditCommits => AuditsOnly(s, s')
    case _ => Quiet(s, s')
  }

  lemma StepShape(cfg: PaperConfig, s: Paper, e: Action)
    requires Committing(s, e)
    ensures OneChange(cfg, s, PaperStep(cfg, s, e), e)
  {
    match e
    case BarArrives(symbol, bar, w) => BarShape(cfg, s, symbol, bar, w);
    case ClockTurns(symbol, ts, close, mono) => var rate, times := ClockShape(cfg, s, symbol, ts, close, mono);
    case Enter(symbol, dir, ts, price, mono, w) => EntryShape(cfg, s, symbol, dir, ts, price, mono, w);
    case LastCandle(symbol, w) => TakeCandleShape(cfg, s, symbol, w);
    case LastClose(symbol, ts, given, w) =>
      if symbol in s.memory {
        CloseShape(cfg, s, symbol, ts, LastPrice(s.memory[symbol], given, s.mk.prices), EndOfRun, w);
      }
    case _ =>
  }

  // ---------------------------------------------------------------- agreement, one step on

  ghost predicate Agrees(s: Paper) {
    Agree(Pending(s), s.disk)
  }

  /** After a step agreement holds exactly under this condition, and then everything else does. */
  ghost predicate AgreesIf(cfg: PaperConfig, s: Paper, s': Paper, condition: bool) {
    (Agrees(s') <==> condition) && (condition ==> Sound(cfg, s'))
  }

  lemma OpenKeeps(cfg: PaperConfig, s: Paper, s': Paper, e: Action, id: Id)
    requires Sound(cfg, s) && s.hand.Free? && Opens(cfg, s, s', id)
    ensures AgreesIf(cfg, s, s', CarriesNothing(s, s', e))
  {
    InsertAgrees(s.memory, s.disk, s.db, s'.hand.p);
  }

  lemma CloseKeeps(cfg: PaperConfig, s: Paper, s': Paper, e: Action, x: string)
    requires Sound(cfg, s) && s.hand.Free? && Closes(s, s', x)
    ensures AgreesIf(cfg, s, s', CarriesNothing(s, s', e))
  {
    assert HasOpenRow(s.disk, x, s.memory[x]);
    CloseAgrees(s.memory, s.disk, s.db, s'.hand.t);
    assert (s.memory - {x}).Keys == s.memory.Keys - {x};
  }

  lemma AuditKeeps(cfg: PaperConfig, s: Paper, s': Paper)
    requires Sound(cfg, s) && s.hand.Free? && AuditsOnly(s, s')
    ensures AgreesIf(cfg, s, s', s.db == s.disk)
  {
    SameMemoryAgrees(s.memory, s.disk, s.db);
  }

  lemma PayKeeps(cfg: PaperConfig, s: Paper, s': Paper, x: string, rate: real, times: int)
    requires Sound(cfg, s) && s.hand.Free? && cfg.trading.includeFunding && Pays(s, s', x, rate, times)
    ensures Sound(cfg, s')
  {
    FundingAgrees(s.memory, s.disk, x, rate, times);
    assert s'.memory.Keys == s.memory.Keys;
  }

  lemma StuckCloseKeeps(cfg: PaperConfig, s: Paper, s': Paper, x: string, t: Trade)
    requires Sound(cfg, s) && s.hand.Free? && StuckClose(s, s', x, t)
    ensures Sound(cfg, s')
  {
    assert HasOpenRow(s.disk, x, s.memory[x]);
    assert RowAhead(s.disk, s.db, IdOf(t.pos));
    forall id | id in s'.disk ensures RowAhead(s'.disk, s'.db, id) { assert RowAhead(s.disk, s.db, id); }
  }

  lemma StuckOpenKeeps(cfg: PaperConfig, s: Paper, s': Paper, id: Id, p: Position)
    requires Sound(cfg, s) && s.hand.Free? && StuckOpen(s, s', id, p)
    ensures Sound(cfg, s')
  {
    forall i | i in s'.disk ensures RowAhead(s'.disk, s'.db, i) { assert RowAhead(s.disk, s.db, i); }
  }

  lemma EntryKeeps(cfg: PaperConfig, s: Paper, s': Paper, e: Action, id: Id)
    requires Sound(cfg, s) && s.hand.Free? && e.Enter? && EntryEnds(cfg, s, s', id, e.w)
    ensures AgreesIf(cfg, s, s', CarriesNothing(s, s', e))
  {
    if e.w.Commits? && Opens(cfg, s, s', id) {
      OpenKeeps(cfg, s, s', e, id);
    } else if !Quiet(s, s') {
      var p :| StuckOpen(s, s', id, p);
      StuckOpenKeeps(cfg, s, s', id, p);
    }
  }

  lemma ExitKeeps(cfg: PaperConfig, s: Paper, s': Paper, e: Action, x: string, w: Write)
    requires Sound(cfg, s) && s.hand.Free? && !e.AuditCommits? && ExitEnds(s, s', x, w)
    ensures AgreesIf(cfg, s, s', CarriesNothing(s, s', e))
  {
    if w.Commits? && Closes(s, s', x) {
      CloseKeeps(cfg, s, s', e, x);
    } else if !Quiet(s, s') {
      var t :| StuckClose(s, s', x, t);
      StuckCloseKeeps(cfg, s, s', x, t);
    }
  }

  lemma ClockKeeps(cfg: PaperConfig, s: Paper, s': Paper, x: string)
    requires Sound(cfg, s) && s.hand.Free? && ClockEnds(cfg, s, s', x)
    ensures Sound(cfg, s') && s'.hand.Free?
  {
    if !Quiet(s, s') {
      var rate, times :| Pays(s, s', x, rate, times);
      PayKeeps(cfg, s, s', x, rate, times);
    }
  }

  lemma ChangeKeeps(cfg: PaperConfig, s: Paper, e: Action)
    requires Committing(s, e) && Sound(cfg, s)
    ensures var s' := PaperStep(cfg, s, e); AgreesIf(cfg, s, s', CarriesNothing(s, s', e))
  {
    var s' := PaperStep(cfg, s, e);
    StepShape(cfg, s, e);
    match e
    case ClockTurns(symbol, _, _, _) => ClockKeeps(cfg, s, s', symbol);
    case Enter(symbol, _, ts, _, _, _) => EntryKeeps(cfg, s, s', e, Id(symbol, ts));
    case BarArrives(symbol, _, w) => ExitKeeps(cfg, s, s', e, symbol, w);
    case LastCandle(symbol, w) => ExitKeeps(cfg, s, s', e, symbol, w);
    case LastClose(symbol, _, _, w) => ExitKeeps(cfg, s, s', e, symbol, w);
    case AuditCommits => AuditKeeps(cfg, s, s');
    case _ =>
  }

  lemma CrashKeeps(cfg: PaperConfig, s: Paper, order: seq<Id>, readOk: bool)
    requires MemoryOk(cfg, Pending(s), s.disk)
    ensures var s' := Restart(cfg, s, order, readOk);
            && AgreesIf(cfg, s, s', Lists(Listing(order, readOk), s.disk))
            && (Lists(Listing(order, readOk), s.disk) ==> s'.memory == Recovered(Pending(s)))
  {
    ListedAgrees(Pending(s), s.disk, Listing(order, readOk));
    if Lists(Listing(order, readOk), s.disk) {
      LoadRecovers(Pending(s), s.disk, Listing(order, readOk));
      RecoveredAgrees(Pending(s), s.disk);
    }
    forall id | id in s.disk ensures RowAhead(s.disk, s.disk, id) {}
  }

  /** One step on from agreement, agreement holds exactly if the step was proper. */
  lemma StepKeeps(cfg: PaperConfig, s: Paper, e: Action)
    requires Sound(cfg, s)
    ensures AgreesIf(cfg, s, PaperStep(cfg, s, e), Proper(cfg, s, e))
  {
    if e.Crash? {
      CrashKeeps(cfg, s, e.order, e.readOk);
    } else if Committing(s, e) {
      ChangeKeeps(cfg, s, e);
    }
  }

  // ---------------------------------------------------------------- agreement over runs

  /** Over every proper run the OPEN rows on disk are exactly the positions in memory (once memory has
      followed the commit in hand), at most one per symbol and at most the global limit; whatever writes
      raised and wherever the process died. */
  lemma {:induction false} RunAgrees(cfg: PaperConfig, es: seq<Action>)
    requires ProperRun(cfg, es)
    ensures var s := PaperRun(cfg, es); Sound(cfg, s) && (s.hand.Free? ==> MemoryOk(cfg, s.memory, s.disk))
  {
    if |es| > 0 {
      RunAgrees(cfg, es[..|es| - 1]);
      StepKeeps(cfg, PaperRun(cfg, es[..|es| - 1]), es[|es| - 1]);
    }
  }

  /** After the run, and at every point before. */
  ghost predicate AgreesThroughout(cfg: PaperConfig, es: seq<Action>) {
    Agrees(PaperRun(cfg, es)) && (|es| > 0 ==> AgreesThroughout(cfg, es[..|es| - 1]))
  }

  /** Memory and disk agree at every point of a run exactly if the run is proper: no commit carried along
      what had been refused, and every startup loaded every OPEN row. */
  lemma {:induction false} AgreesExactlyIfProper(cfg: PaperConfig, es: seq<Action>)
    ensures AgreesThroughout(cfg, es) <==> ProperRun(cfg, es)
  {
    if |es| > 0 {
      var n := |es| - 1;
      AgreesExactlyIfProper(cfg, es[..n]);
      if ProperRun(cfg, es[..n]) {
        RunAgrees(cfg, es[..n]);
        StepKeeps(cfg, PaperRun(cfg, es[..n]), es[n]);
      }
    } else {
      RunAgrees(cfg, es);
    }
  }

  /** A crash at any point, between a commit and its memory update and with a statement stuck too, loses
      nothing but funding: the restarted process holds the positions that memory had or was about to
      have, field for field when funding is off. */
  lemma CrashRestores(cfg: PaperConfig, es: seq<Action>, order: seq<Id>)
    requires ProperRun(cfg, es) && Lists(order, PaperRun(cfg, es).disk)
    ensures var s := PaperRun(cfg, es);
            var s' := PaperStep(cfg, s, Crash(order, true));
            && s'.disk == s.disk && s'.memory == Recovered(Pending(s))
            && (!cfg.trading.includeFunding ==> s'.memory == Pending(s))
            && (!cfg.trading.includeFunding && s.hand.Free? ==> s'.memory == s.memory)
  {
    RunAgrees(cfg, es);
    CrashKeeps(cfg, PaperRun(cfg, es), order, true);
    RecoveryLosesFunding(Pending(PaperRun(cfg, es)));
  }

  // ---------------------------------------------------------------- what commits carry along

  /** A commit, of the manager or of anybody else on the connection, keeps disk and memory in agreement
      exactly if it carries nothing along behind the back of memory. */
  lemma CommitAgreesIfNothingCarried(cfg: PaperConfig, es: seq<Action>, e: Action)
    requires ProperRun(cfg, es) && Committing(PaperRun(cfg, es), e)
    ensures var s, s' := PaperRun(cfg, es), PaperStep(cfg, PaperRun(cfg, es), e);
            Agrees(s') <==> CarriesNothing(s, s', e)
  {
    RunAgrees(cfg, es);
    ChangeKeeps(cfg, PaperRun(cfg, es), e);
  }

  /** With an entry stuck, every commit but the retry of the same entry ends agreement. */
  lemma StuckEntryIsCarried(cfg: PaperConfig, s: Paper, s1: Paper, id: Id, p: Position, e: Action)
    requires Sound(cfg, s) && s.hand.Free? && id !in s.db && StuckOpen(s, s1, id, p)
    requires Committing(s1, e)
    ensures var s' := PaperStep(cfg, s1, e);
            e.AuditCommits? || s'.hand.Closing? || (s'.hand.Opening? && IdOf(s'.hand.p) != id) ==> !Agrees(s')
  {
    StuckOpenKeeps(cfg, s, s1, id, p);
    ChangeKeeps(cfg, s1, e);
    forall k | k in s.disk ensures k in s.db { assert RowAhead(s.disk, s.db, k); }
    var s' := PaperStep(cfg, s1, e);
    if s'.hand.Closing? {
      StepShape(cfg, s1, e);
      ClosesKnown(cfg, s1, s', e);
    }
  }

  /** A close is of a position in memory, so its row is on disk. */
  lemma ClosesKnown(cfg: PaperConfig, s: Paper, s': Paper, e: Action)
    requires Sound(cfg, s) && OneChange(cfg, s, s', e) && s'.hand.Closing? && s.hand.Free?
    ensures IdOf(s'.hand.t.pos) in s.disk && s.disk[IdOf(s'.hand.t.pos)] == Row(Base(s'.hand.t.pos), None)
    ensures RowAhead(s.disk, s.db, IdOf(s'.hand.t.pos)) && s'.disk == CloseRow(s.db, s'.hand.t)
  {
    var x := s'.hand.t.pos.symbol;
    assert forall y :: y in s.memory ==> HasOpenRow(s.disk, y, s.memory[y]);
  }

  /** A stuck entry that the next commit carries along comes back as a position nobody took: after a
      restart memory has it. */
  lemma StuckEntryComesBack(cfg: PaperConfig, s: Paper, s1: Paper, id: Id, p: Position, order: seq<Id>)
    requires s.hand.Free? && Agree(s.memory, s.disk) && s.db == s.disk && id !in s.db
    requires StuckOpen(s, s1, id, p) && p == Base(p) && Lists(order, s1.db)
    ensures var s2 := PaperStep(cfg, s1, AuditCommits);
            var s3 := PaperStep(cfg, s2, Crash(order, true));
            s2.memory == s.memory && id.symbol !in s.memory && s3.memory == Recovered(s.memory)[id.symbol := p]
  {
    InsertKeepsOthers(s.memory, s.db, s.db, p);
    LoadRecovers(s.memory[p.symbol := p], s1.db, order);
    assert Recovered(s.memory[p.symbol := p]) == Recovered(s.memory)[p.symbol := p];
  }

  /** An entry that commits keeps memory and disk in agreement exactly when its id is new: with an id
      already in the table the insert is ignored, the position lives in memory only, and a crash would
      lose it. */
  lemma EntryAgreesIfNew(
    cfg: PaperConfig, s: Paper, symbol: string, dir: Direction, ts: int, price: real, mono: int)
    requires s.hand.Free? && MemoryOk(cfg, s.memory, s.disk) && s.db == s.disk
    requires EntryCommit(cfg, s, symbol, dir, ts, price, mono, Commits).hand.Opening?
    ensures var s' := EntryCommit(cfg, s, symbol, dir, ts, price, mono, Commits);
            Agree(Pending(s'), s'.disk) <==> Id(symbol, ts) !in s.db
  {
    var s' := EntryCommit(cfg, s, symbol, dir, ts, price, mono, Commits);
    var id := Id(symbol, ts);
    EntryShape(cfg, s, symbol, dir, ts, price, mono, Commits);
    InsertAgrees(s.memory, s.disk, s.db, s'.hand.p);
    if id in s.db { assert RowShown(s.memory, id, s.db[id]); }
  }

  /** A startup that cannot read the table leaves memory empty; that agrees exactly when no row is
      OPEN. */
  lemma FailedStartupAgreesIfNoneOpen(cfg: PaperConfig, s: Paper, order: seq<Id>)
    requires MemoryOk(cfg, Pending(s), s.disk)
    ensures var s' := PaperStep(cfg, s, Crash(order, false));
            s'.memory == map[] && (Agrees(s') <==> forall id :: id in s.disk ==> s.disk[id].exit.Some?)
  {
    CrashKeeps(cfg, s, order, false);
  }

  /** A startup skips rows that do not parse, so that its listing lacks them; it agrees exactly when no
      OPEN row is among those. */
  lemma StartupAgreesIfAllParse(cfg: PaperConfig, s: Paper, order: seq<Id>)
    requires MemoryOk(cfg, Pending(s), s.disk)
    ensures var s' := PaperStep(cfg, s, Crash(order, true)); Agrees(s') <==> Lists(order, s.disk)
  {
    CrashKeeps(cfg, s, order, true);
  }

  /** With an OPEN row on disk, a failed startup does lose the position. */
  lemma FailedStartupLosesThePosition(cfg: PaperConfig, p: Position)
    requires p == Base(p)
    ensures var s := Boot(cfg, map[IdOf(p) := Row(p, None)]);
            var s' := PaperStep(cfg, s, Crash([IdOf(p)], false));
            s'.memory == map[] && !Agree(s'.memory, s'.disk)
  {
    var disk := map[IdOf(p) := Row(p, None)];
    assert IdOf(p) in disk && !RowShown(map[], IdOf(p), disk[IdOf(p)]);
  }

  /** A write that raises leaves memory, disk, trades and equity as they were; if it did not stick, the
      table too. */
  lemma RaisedWriteChangesNothing(cfg: PaperConfig, s: Paper, e: Action)
    requires s.hand.Free?
    requires (e.BarArrives? || e.Enter? || e.LastCandle? || e.LastClose?) && !e.w.Commits?
    ensures var s' := PaperStep(cfg, s, e);
            && SameLedger(s, s') && s'.hand.Free? && s'.memory == s.memory && s'.disk == s.disk
            && (e.w.Fails? ==> s'.db == s.db)
  {
    StepShape(cfg, s, e);
  }

  // ---------------------------------------------------------------- rows and trades

  /** A row on disk never disappears, keeps its entry columns, and once closed never changes. */
  lemma RowsOnlyClose(cfg: PaperConfig, s: Paper, e: Action, id: Id)
    requires id in s.disk && Ahead(s.disk, s.db)
    ensures var disk' := PaperStep(cfg, s, e).disk;
            && id in disk' && disk'[id].pos == s.disk[id].pos
            && (s.disk[id].exit.Some? ==> disk'[id] == s.disk[id])
  {
    if Committing(s, e) {
      StepShape(cfg, s, e);
      ChangeOnlyCloses(cfg, s, PaperStep(cfg, s, e), e, id);
    }
  }

  lemma ChangeOnlyCloses(cfg: PaperConfig, s: Paper, s': Paper, e: Action, id: Id)
    requires id in s.disk && Ahead(s.disk, s.db) && OneChange(cfg, s, s', e)
    ensures id in s'.disk && s'.disk[id].pos == s.disk[id].pos && (s.disk[id].exit.Some? ==> s'.disk[id] == s.disk[id])
  {
    assert RowAhead(s.disk, s.db, id);
  }

  /** The row of the trade has its figures. */
  ghost predicate Recorded(disk: Rows, t: Trade) {
    RowClosed(disk, t) && HasFigures(disk[IdOf(t.pos)].exit.value, t)
  }

  /** The exit columns say when, where and why the trade was left, and what it made; the fee is that of
      the exit alone. */
  predicate HasFigures(x: Exit, t: Trade) {
    && x.ts == t.exitTs && x.price == t.exitPrice && x.reason == t.reason
    && x.fee == t.feePaid - t.pos.entryFee && x.gross == t.pnlGross && x.net == t.pnlNet && x.r == t.r
  }

  /** The row of the trade is closed, whatever its figures. */
  ghost predicate RowClosed(disk: Rows, t: Trade) {
    IdOf(t.pos) in disk && disk[IdOf(t.pos)].pos == Base(t.pos) && disk[IdOf(t.pos)].exit.Some?
  }

  function SumTrades(ts: seq<Trade>): real {
    if |ts| == 0 then 0.0 else SumTrades(ts[..|ts| - 1]) + ts[|ts| - 1].pnlNet
  }

  /** Every trade of this process has its row closed on disk, the one in hand too; and the realized
      equity is the initial equity plus the trades since the process started. */
  ghost predicate TradesOk(cfg: PaperConfig, s: Paper) {
    && (forall k :: 0 <= k < |s.trades| ==> RowClosed(s.disk, s.trades[k]))
    && (s.hand.Closing? ==> RowClosed(s.disk, s.hand.t))
    && s.realized == cfg.trading.initialEquity + SumTrades(s.trades)
  }

  ghost predicate AllRecorded(s: Paper) {
    && (forall k :: 0 <= k < |s.trades| ==> Recorded(s.disk, s.trades[k]))
    && (s.hand.Closing? ==> Recorded(s.disk, s.hand.t))
  }

  /** A committed close finds its row OPEN on the connection, or closed by a stuck statement with the very
      same figures. */
  ghost predicate ClosesOpenRow(s: Paper, s': Paper) {
    s'.hand.Closing? ==>
      var t := s'.hand.t;
      IdOf(t.pos) in s.db && (s.db[IdOf(t.pos)].exit.None? || HasFigures(s.db[IdOf(t.pos)].exit.value, t))
  }

  /** All closes since the process started did. */
  ghost predicate ClosesOpenRows(cfg: PaperConfig, es: seq<Action>) {
    if |es| == 0 || es[|es| - 1].Crash? then true
    else
      var s, e := PaperRun(cfg, es[..|es| - 1]), es[|es| - 1];
      ClosesOpenRows(cfg, es[..|es| - 1]) && (Committing(s, e) ==> ClosesOpenRow(s, PaperStep(cfg, s, e)))
  }

  /** A committed close is on disk with its figures exactly if it found its row OPEN. */
  lemma CloseIsRecordedIfOpen(cfg: PaperConfig, s: Paper, e: Action)
    requires Sound(cfg, s) && Committing(s, e) && PaperStep(cfg, s, e).hand.Closing?
    ensures var s' := PaperStep(cfg, s, e);
            RowClosed(s'.disk, s'.hand.t) && (Recorded(s'.disk, s'.hand.t) <==> ClosesOpenRow(s, s'))
  {
    var t := PaperStep(cfg, s, e).hand.t;
    StepShape(cfg, s, e);
    ClosesKnown(cfg, s, PaperStep(cfg, s, e), e);
    CloseRecords(s.disk, s.db, t);
  }

  lemma CloseRecords(disk: Rows, db: Rows, t: Trade)
    requires IdOf(t.pos) in disk && disk[IdOf(t.pos)] == Row(Base(t.pos), None) && RowAhead(disk, db, IdOf(t.pos))
    ensures RowClosed(CloseRow(db, t), t)
    ensures Recorded(CloseRow(db, t), t) <==>
              db[IdOf(t.pos)].exit.None? || HasFigures(db[IdOf(t.pos)].exit.value, t)
  {
  }

  /** A close that stuck and is committed at the next touch, or at the end of the run: memory and disk
      agree again, the row keeps the figures of the first attempt, and the trade in memory has those of
      the second. */
  lemma RetriedCloseKeepsFirstFigures(
    cfg: PaperConfig, s: Paper, x: string, ts: int, price: real, reason: ExitReason,
    ts': int, price': real, reason': ExitReason)
    requires Sound(cfg, s) && s.hand.Free? && s.db == s.disk && x in s.memory
    ensures var s1 := CloseCommit(cfg, s, x, ts, price, reason, Sticks);
            var s2 := CloseCommit(cfg, s1, x, ts', price', reason', Commits);
            && s1.db != s1.disk && Agrees(s1) && Agrees(s2) && s2.hand.Closing?
            && s2.disk[IdOf(s.memory[x])].exit.Some?
            && HasFigures(s2.disk[IdOf(s.memory[x])].exit.value,
                          MakeTrade(cfg.trading, s.memory[x], ts, price, reason))
            && (ts' != ts ==> !Recorded(s2.disk, s2.hand.t))
  {
    var t, t' := MakeTrade(cfg.trading, s.memory[x], ts, price, reason),
                 MakeTrade(cfg.trading, s.memory[x], ts', price', reason');
    RetriedRow(s.memory, s.disk, t, t');
  }

  lemma RetriedRow(m: Memory, disk: Rows, t: Trade, t': Trade)
    requires Agree(m, disk) && t.pos.symbol in m && t.pos == t'.pos == m[t.pos.symbol]
    ensures var rows := CloseRow(CloseRow(disk, t), t');
            && CloseRow(disk, t) != disk && Agree(m - {t.pos.symbol}, rows)
            && IdOf(t.pos) in rows && rows[IdOf(t.pos)].exit.Some? && HasFigures(rows[IdOf(t.pos)].exit.value, t)
            && (t'.exitTs != t.exitTs ==> !Recorded(rows, t'))
  {
    assert HasOpenRow(disk, t.pos.symbol, t.pos);
    assert CloseRow(CloseRow(disk, t), t') == CloseRow(disk, t);
    CloseAgrees(m, disk, disk, t);
  }

  lemma SettleKeepsTrades(cfg: PaperConfig, s: Paper)
    requires TradesOk(cfg, s) && s.hand.Closing?
    ensures TradesOk(cfg, Settle(s)) && (AllRecorded(Settle(s)) <==> AllRecorded(s))
  {
    var s' := Settle(s);
    assert s'.trades[..|s.trades|] == s.trades && s'.trades[|s.trades|] == s.hand.t;
    forall k | 0 <= k < |s'.trades| ensures RowClosed(s'.disk, s'.trades[k]) {
      if k < |s.trades| { assert RowClosed(s.disk, s.trades[k]); }
    }
    forall k | 0 <= k < |s.trades| ensures s'.trades[k] == s.trades[k] {}
  }

  lemma ClosedStays(cfg: PaperConfig, s: Paper, e: Action, t: Trade)
    requires Ahead(s.disk, s.db) && RowClosed(s.disk, t)
    ensures var disk' := PaperStep(cfg, s, e).disk;
            RowClosed(disk', t) && (Recorded(disk', t) <==> Recorded(s.disk, t))
  {
    RowsOnlyClose(cfg, s, e, IdOf(t.pos));
  }

  lemma ChangeKeepsTrades(cfg: PaperConfig, s: Paper, e: Action)
    requires TradesOk(cfg, s) && Committing(s, e) && Sound(cfg, s)
    ensures var s' := PaperStep(cfg, s, e);
            TradesOk(cfg, s') && (AllRecorded(s') <==> AllRecorded(s) && ClosesOpenRow(s, s'))
  {
    var s' := PaperStep(cfg, s, e);
    ChangeKeepsLedger(cfg, s, e);
    forall k | 0 <= k < |s.trades|
      ensures RowClosed(s'.disk, s.trades[k]) && (Recorded(s'.disk, s.trades[k]) <==> Recorded(s.disk, s.trades[k]))
    {
      assert RowClosed(s.disk, s.trades[k]);
      ClosedStays(cfg, s, e, s.trades[k]);
    }
    if s'.hand.Closing? { CloseIsRecordedIfOpen(cfg, s, e); }
    RecordedOneMore(s, s');
  }

  lemma RecordedOneMore(s: Paper, s': Paper)
    requires s'.trades == s.trades && s.hand.Free?
    requires forall k :: 0 <= k < |s.trades| ==> (Recorded(s'.disk, s.trades[k]) <==> Recorded(s.disk, s.trades[k]))
    requires s'.hand.Closing? ==> (Recorded(s'.disk, s'.hand.t) <==> ClosesOpenRow(s, s'))
    ensures AllRecorded(s') <==> AllRecorded(s) && ClosesOpenRow(s, s')
  {
  }

  lemma ChangeKeepsLedger(cfg: PaperConfig, s: Paper, e: Action)
    requires Committing(s, e)
    ensures SameLedger(s, PaperStep(cfg, s, e))
  {
    StepShape(cfg, s, e);
  }

  /** Over every proper run each trade of the process has its row closed on disk, and equity is the sum of
      the trades; and every trade is there with its figures exactly if every close found its row OPEN. */
  lemma {:induction false} RunRecordsTrades(cfg: PaperConfig, es: seq<Action>)
    requires ProperRun(cfg, es)
    ensures TradesOk(cfg, PaperRun(cfg, es))
    ensures AllRecorded(PaperRun(cfg, es)) <==> ClosesOpenRows(cfg, es)
  {
    if |es| > 0 {
      var s, e := PaperRun(cfg, es[..|es| - 1]), es[|es| - 1];
      RunRecordsTrades(cfg, es[..|es| - 1]);
      RunAgrees(cfg, es[..|es| - 1]);
      if Committing(s, e) {
        ChangeKeepsTrades(cfg, s, e);
      } else if e.MemoryFollows? && s.hand.Closing? {
        SettleKeepsTrades(cfg, s);
      }
    }
  }
}
