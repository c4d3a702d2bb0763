/** Sequencing and epochs: which order-book updates may touch a book across reconnects, resyncs and
  snapshots.

  The slice of the websocket manager, the sequence validator and the book that concerns one symbol.
  Coroutines interleave at their awaits: a connect waits for the validator, a message waits for
  validation, a resync waits for its fetch. Applying a validated batch follows validation with no
  await in between.
 */
module WsSync {

  datatype Mode = Binance | Mexc

  /** An update; on MEXC its version is both ends of the range. seqNo is what the pre-sync queue keeps. */
  datatype Msg = Msg(firstU: int, finalU: int, seqNo: int, epoch: int)

  datatype SeqState = NoState | SeqState(lastU: int, epoch: int)

  datatype Verdict = Verdict(valid: bool, gap: bool, resync: bool)

  /** The verdict of the validator on an update. */
  function Validate(mode: Mode, q: SeqState, m: Msg): Verdict {
    if q.NoState? || m.epoch != q.epoch then Verdict(false, false, true)
    else if mode.Mexc? then
      if m.firstU <= q.lastU then Verdict(false, false, false) else Verdict(true, false, false)
    else if m.finalU <= q.lastU then Verdict(false, false, false)
    else if m.firstU > q.lastU + 1 then Verdict(false, true, true)
    else Verdict(true, false, false)
  }

  function LastOf(mode: Mode, m: Msg): int {
    if mode.Mexc? then m.firstU else m.finalU
  }

  datatype Queued = Queued(seqNo: int, epoch: int)

  /** What happens to the book: it gets a snapshot, or a batch of some connection changes it. */
  datatype BookEvent = Snapshot | Change(epoch: int)

  datatype State = State(
    currentEpoch: int, synced: bool, connected: bool, connecting: multiset<int>,
    q: SeqState, validating: multiset<Msg>, fetching: nat,
    hasBook: bool, bookEpoch: int, queue: seq<Queued>,
    base: int, accepted: seq<Msg>,          // since the last set_epoch or set_last_u
    bookLog: seq<BookEvent>)

  const START := State(0, false, false, multiset{}, NoState, multiset{}, 0, false, 0, [], 0, [], [])

  /** How a snapshot fetch ends: applied, reported as failed, or raised. */
  datatype FetchEnd = FetchApplied(seqNo: int) | FetchFalse | FetchRaised

  datatype Event =
    | Connect                 // up to the await of set_epoch
    | ConnectDone(epoch: int, raised: bool) // set_epoch, which may raise, and the rest of connect
    | TaskEnds
    | Arrive(m: Msg)          // up to the await of validate
    | Validated(m: Msg)       // validate and, if valid, apply_batch
    | StartSnapshot
    | FetchEnds(end: FetchEnd)
    | SetLastU(u: int)

  function ResetSeq(s: State, q: SeqState): State
    requires q.SeqState?
  {
    s.(q := q, base := q.lastU, accepted := [])
  }

  function StartConnect(s: State): State {
    if s.connected then s
    else
      s.(currentEpoch := s.currentEpoch + 1, synced := false,
         connecting := s.connecting + multiset{s.currentEpoch + 1})
  }

  function FinishConnect(s: State, epoch: int, raised: bool): State {
    if epoch !in s.connecting then s
    else
      (if raised then s else ResetSeq(s, SeqState(0, epoch))).(
        connecting := s.connecting - multiset{epoch}, queue := [], connected := true)
  }

  function TakeMessage(s: State, m: Msg): State {
    if m.epoch != s.currentEpoch || s.currentEpoch == 0 then s
    else if !s.synced then
      s.(queue := if s.hasBook then s.queue + [Queued(m.seqNo, m.epoch)] else s.queue)
    else s.(validating := s.validating + multiset{m})
  }

  /** A valid update: the validator moves on, and the book takes it if its epoch is the book's. */
  function Accept(mode: Mode, s: State, m: Msg): State {
    s.(q := SeqState(LastOf(mode, m), m.epoch), accepted := s.accepted + [m],
       bookLog := if s.hasBook && m.epoch == s.bookEpoch then s.bookLog + [Change(m.epoch)] else s.bookLog)
  }

  function FinishMessage(mode: Mode, s: State, m: Msg): State {
    if m !in s.validating then s
    else
      var v, s1 := Validate(mode, s.q, m), s.(validating := s.validating - multiset{m});
      if v.resync then s1.(synced := false, fetching := s.fetching + 1)
      else if v.valid then Accept(mode, s1, m)
      else s1
  }

  function TakeSnapshot(s: State, seqNo: int): State {
    s.(synced := true, hasBook := true, bookEpoch := s.bookEpoch + 1,
       queue := Keep(s.queue, seqNo, s.bookEpoch + 1), bookLog := s.bookLog + [Snapshot])
  }

  function FinishFetch(s: State, end: FetchEnd): State {
    if s.fetching == 0 then s
    else
      var s1 := s.(fetching := s.fetching - 1);
      match end
      case FetchRaised => s1
      case FetchFalse => s1.(synced := true)
      case FetchApplied(seqNo) => TakeSnapshot(s1, seqNo)
  }

  function Step(mode: Mode, s: State, e: Event): State {
    match e
    case Connect => StartConnect(s)
    case ConnectDone(epoch, raised) => FinishConnect(s, epoch, raised)
    case TaskEnds => s.(connected := false)
    case Arrive(m) => TakeMessage(s, m)
    case Validated(m) => FinishMessage(mode, s, m)
    case StartSnapshot => s.(fetching := s.fetching + 1)
    case FetchEnds(end) => FinishFetch(s, end)
    case SetLastU(u) => ResetSeq(s, SeqState(u, if s.q.NoState? then 0 else s.q.epoch))
  }

  /** The queued updates a snapshot does not already contain and that belong to its epoch. */
  function Keep(queue: seq<Queued>, seqNo: int, epoch: int): seq<Queued> {
    if |queue| == 0 then []
    else
      var d := queue[|queue| - 1];
      Keep(queue[..|queue| - 1], seqNo, epoch) + if IsAhead(d, seqNo, epoch) then [d] else []
  }

  function Run(mode: Mode, es: seq<Event>): State {
    if |es| == 0 then START else Step(mode, Run(mode, es[..|es| - 1]), es[|es| - 1])
  }

  // ---------------------------------------------------------------- epochs

  function Snapshots(log: seq<BookEvent>): nat {
    if |log| == 0 then 0 else Snapshots(log[..|log| - 1]) + if log[|log| - 1].Snapshot? then 1 else 0
  }

  ghost predicate EpochsMatch(log: seq<BookEvent>) {
    forall i :: 0 <= i < |log| && log[i].Change? ==> log[i].epoch == Snapshots(log[..i])
  }

  lemma LogGrows(log: seq<BookEvent>, b: BookEvent)
    requires EpochsMatch(log) && (b.Change? ==> b.epoch == Snapshots(log))
    ensures EpochsMatch(log + [b])
    ensures Snapshots(log + [b]) == Snapshots(log) + if b.Snapshot? then 1 else 0
  {
    var all := log + [b];
    assert all[..|log|] == log;
    forall i | 0 <= i < |all| && all[i].Change? ensures all[i].epoch == Snapshots(all[..i]) {
      if i < |log| {
        assert all[..i] == log[..i];
      }
    }
  }

  /** The log matches the book: each change carries the number of snapshots before it, and the epoch of
      the book is the number of snapshots. */
  ghost predicate LogOk(log: seq<BookEvent>, bookEpoch: int) {
    EpochsMatch(log) && bookEpoch == Snapshots(log)
  }

  lemma SnapshotKeepsLog(log: seq<BookEvent>, bookEpoch: int)
    requires LogOk(log, bookEpoch)
    ensures LogOk(log + [Snapshot], bookEpoch + 1)
  {
    LogGrows(log, Snapshot);
  }

  lemma ChangeKeepsLog(log: seq<BookEvent>, bookEpoch: int)
    requires LogOk(log, bookEpoch)
    ensures LogOk(log + [Change(bookEpoch)], bookEpoch)
  {
    LogGrows(log, Change(bookEpoch));
  }

  lemma StepKeepsLog(mode: Mode, s: State, e: Event)
    requires LogOk(s.bookLog, s.bookEpoch)
    ensures LogOk(Step(mode, s, e).bookLog, Step(mode, s, e).bookEpoch)
  {
    if e.Validated? {
      MessageKeepsLog(mode, s, e.m);
    } else if e.FetchEnds? {
      FetchKeepsLog(s, e.end);
    } else {
      OthersKeepLog(mode, s, e);
    }
  }

  lemma FetchKeepsLog(s: State, end: FetchEnd)
    requires LogOk(s.bookLog, s.bookEpoch)
    ensures LogOk(FinishFetch(s, end).bookLog, FinishFetch(s, end).bookEpoch)
  {
    SnapshotKeepsLog(s.bookLog, s.bookEpoch);
  }

  lemma MessageKeepsLog(mode: Mode, s: State, m: Msg)
    requires LogOk(s.bookLog, s.bookEpoch)
    ensures LogOk(FinishMessage(mode, s, m).bookLog, FinishMessage(mode, s, m).bookEpoch)
  {
    ChangeKeepsLog(s.bookLog, s.bookEpoch);
  }

  lemma OthersKeepLog(mode: Mode, s: State, e: Event)
    requires !e.Validated? && !e.FetchEnds?
    ensures Step(mode, s, e).bookLog == s.bookLog && Step(mode, s, e).bookEpoch == s.bookEpoch
  {
  }

  /** Over every interleaving, a batch that changes the book between its s-th and its next snapshot
      carries connection epoch s. */
  lemma {:induction false} ChangesCarryTheSnapshotEpoch(mode: Mode, es: seq<Event>)
    ensures LogOk(Run(mode, es).bookLog, Run(mode, es).bookEpoch)
  {
    if |es| > 0 {
      ChangesCarryTheSnapshotEpoch(mode, es[..|es| - 1]);
      StepKeepsLog(mode, Run(mode, es[..|es| - 1]), es[|es| - 1]);
    }
  }

  /** An accepted update changes the book exactly if there is one and the update's epoch is the number
      of snapshots the book has had. */
  lemma AcceptedChangesIfEpochMatches(mode: Mode, es: seq<Event>, m: Msg)
    requires m in Run(mode, es).validating && Validate(mode, Run(mode, es).q, m).valid
    ensures var s, s' := Run(mode, es), Step(mode, Run(mode, es), Validated(m));
            s'.bookLog == s.bookLog + [Change(m.epoch)] <==> s.hasBook && m.epoch == Snapshots(s.bookLog)
  {
    ChangesCarryTheSnapshotEpoch(mode, es);
    var log := Run(mode, es).bookLog;
    assert |log + [Change(m.epoch)]| == |log| + 1;
  }

  // ---------------------------------------------------------------- a frozen book

  /** Messages in flight belong to connections made so far. */
  ghost predicate FromThePast(s: State) {
    forall m :: m in s.validating ==> m.epoch <= s.currentEpoch
  }

  lemma StepKeepsPast(mode: Mode, s: State, e: Event)
    requires FromThePast(s)
    ensures FromThePast(Step(mode, s, e))
  {
    if e.Arrive? {
      ArrivalIsCurrent(s, e.m);
    } else if e.Validated? {
      FinishedLeaves(mode, s, e.m);
    } else {
      OthersKeepMessages(mode, s, e);
    }
  }

  lemma ArrivalIsCurrent(s: State, m: Msg)
    ensures var s' := TakeMessage(s, m);
            && s'.currentEpoch == s.currentEpoch
            && (s'.validating == s.validating
                || (m.epoch == s.currentEpoch && s'.validating == s.validating + multiset{m}))
  {
  }

  lemma FinishedLeaves(mode: Mode, s: State, m: Msg)
    ensures var s' := FinishMessage(mode, s, m);
            && s'.currentEpoch == s.currentEpoch && s'.bookEpoch == s.bookEpoch
            && (s'.validating == s.validating || s'.validating == s.validating - multiset{m})
  {
  }

  lemma OthersKeepMessages(mode: Mode, s: State, e: Event)
    requires !e.Validated? && !e.Arrive?
    ensures Step(mode, s, e).validating == s.validating && Step(mode, s, e).currentEpoch >= s.currentEpoch
  {
  }

  lemma {:induction false} RunIsFromThePast(mode: Mode, es: seq<Event>)
    ensures FromThePast(Run(mode, es))
  {
    if |es| > 0 {
      RunIsFromThePast(mode, es[..|es| - 1]);
      StepKeepsPast(mode, Run(mode, es[..|es| - 1]), es[|es| - 1]);
    }
  }

  function Continue(mode: Mode, s: State, es: seq<Event>): State
    decreases |es|
  {
    if |es| == 0 then s else Continue(mode, Step(mode, s, es[0]), es[1..])
  }

  function Changes(log: seq<BookEvent>): nat {
    if |log| == 0 then 0 else Changes(log[..|log| - 1]) + if log[|log| - 1].Change? then 1 else 0
  }

  /** The book has had at least as many snapshots as there were connections, more if it counts as synced,
      and more than the connection of any message in validation. */
  ghost predicate Frozen(s: State) {
    && s.bookEpoch >= s.currentEpoch && (s.synced ==> s.bookEpoch > s.currentEpoch)
    && forall m :: m in s.validating ==> m.epoch < s.bookEpoch
  }

  /** What thaws such a book, while it is unsynced and only level with the connections: a connect, or a
      fetch reported as failed, which counts as synced. */
  predicate Thaws(s: State, e: Event) {
    && s.bookEpoch == s.currentEpoch
    && ((e.Connect? && !s.connected) || (e.FetchEnds? && e.end.FetchFalse? && s.fetching > 0))
  }

  /** Nothing else thaws it, and nothing at all changes the book by an update. */
  lemma FrozenStep(mode: Mode, s: State, e: Event)
    requires Frozen(s)
    ensures Frozen(Step(mode, s, e)) <==> !Thaws(s, e)
    ensures Changes(Step(mode, s, e).bookLog) == Changes(s.bookLog)
  {
    match e
    case Validated(m) => FrozenMessage(mode, s, m);
    case FetchEnds(end) => FrozenFetch(s, end);
    case Arrive(m) => FrozenArrival(s, m);
    case _ =>
  }

  lemma FrozenMessage(mode: Mode, s: State, m: Msg)
    requires Frozen(s)
    ensures var s' := FinishMessage(mode, s, m); Frozen(s') && s'.bookLog == s.bookLog
  {
    FinishedLeaves(mode, s, m);
    FrozenLog(mode, s, m);
  }

  lemma FrozenLog(mode: Mode, s: State, m: Msg)
    requires Frozen(s)
    ensures var s' := FinishMessage(mode, s, m); s'.bookLog == s.bookLog && (s'.synced ==> s.synced)
  {
    if m in s.validating { assert m.epoch < s.bookEpoch; }
  }

  lemma FrozenFetch(s: State, end: FetchEnd)
    requires Frozen(s)
    ensures var s' := FinishFetch(s, end);
            && (Frozen(s') <==> !Thaws(s, FetchEnds(end)))
            && Changes(s'.bookLog) == Changes(s.bookLog)
  {
    assert (s.bookLog + [Snapshot])[..|s.bookLog|] == s.bookLog;
  }

  lemma FrozenArrival(s: State, m: Msg)
    requires Frozen(s)
    ensures Frozen(TakeMessage(s, m)) && TakeMessage(s, m).bookLog == s.bookLog
  {
    assert forall x :: x in TakeMessage(s, m).validating ==> x in s.validating || (x == m && s.synced);
  }

  /** No step of this run thaws the book. */
  ghost predicate StaysFrozen(mode: Mode, s: State, more: seq<Event>)
    decreases |more|
  {
    |more| == 0 || (!Thaws(s, more[0]) && StaysFrozen(mode, Step(mode, s, more[0]), more[1..]))
  }

  /** No update changes a frozen book, through reconnects and resyncs, until a step thaws it: whatever the
      validator accepts. */
  lemma {:induction false} FrozenBook(mode: Mode, s: State, more: seq<Event>)
    requires Frozen(s) && StaysFrozen(mode, s, more)
    ensures Frozen(Continue(mode, s, more)) && Changes(Continue(mode, s, more).bookLog) == Changes(s.bookLog)
    decreases |more|
  {
    if |more| > 0 {
      FrozenStep(mode, s, more[0]);
      FrozenBook(mode, Step(mode, s, more[0]), more[1..]);
    }
  }

  /** Nothing thaws it whose run has neither a failed fetch nor a connect before the resync of the
      connection before it is over. */
  lemma {:induction false} ReconnectsDoNotThaw(mode: Mode, s: State, more: seq<Event>)
    requires Frozen(s) && Careful(mode, s, more)
    ensures StaysFrozen(mode, s, more)
    decreases |more|
  {
    if |more| > 0 {
      FrozenStep(mode, s, more[0]);
      ReconnectsDoNotThaw(mode, Step(mode, s, more[0]), more[1..]);
    }
  }

  /** No fetch is reported as failed, and every connect that takes place finds the book synced. */
  ghost predicate Careful(mode: Mode, s: State, more: seq<Event>)
    decreases |more|
  {
    |more| == 0 ||
    (!(more[0].FetchEnds? && more[0].end.FetchFalse?) && (more[0].Connect? ==> s.connected || s.synced)
     && Careful(mode, Step(mode, s, more[0]), more[1..]))
  }

  /** One resync on a living connection is enough: after it the book is frozen and counts as synced. */
  lemma ResyncFreezes(mode: Mode, es: seq<Event>, seqNo: int)
    requires var s := Run(mode, es); s.bookEpoch == s.currentEpoch && s.fetching > 0
    ensures var s' := Run(mode, es + [FetchEnds(FetchApplied(seqNo))]); Frozen(s') && s'.synced && s'.hasBook
  {
    var all := es + [FetchEnds(FetchApplied(seqNo))];
    assert all[..|es|] == es;
    RunIsFromThePast(mode, all);
  }

  // ---------------------------------------------------------------- a gap on Binance

  /** The validator waits for a number that no message from here on will start at. */
  predicate Gapped(s: State, from: int) {
    s.q.SeqState? && from > s.q.lastU + 1
  }

  /** Neither end of a connect nor set_last_u: nothing else resets the validator. */
  predicate KeepsGap(e: Event, from: int) {
    && !e.ConnectDone? && !e.SetLastU? && (e.Validated? ==> e.m.finalU >= e.m.firstU >= from)
  }

  /** A resync does not move the validator, so on Binance a gap makes every later range a gap again: every
      message validated before the next connect asks for another resync, and none is accepted. */
  lemma {:induction false} GapStaysGap(s: State, from: int, more: seq<Event>)
    requires Gapped(s, from) && forall k :: 0 <= k < |more| ==> KeepsGap(more[k], from)
    ensures var s' := Continue(Binance, s, more); s'.q == s.q && s'.accepted == s.accepted
    ensures forall m: Msg :: m.finalU >= m.firstU >= from ==>
              var v := Validate(Binance, Continue(Binance, s, more).q, m); v.resync && !v.valid
    decreases |more|
  {
    if |more| > 0 {
      GapStep(s, from, more[0]);
      GapStaysGap(Step(Binance, s, more[0]), from, more[1..]);
    }
  }

  lemma GapStep(s: State, from: int, e: Event)
    requires Gapped(s, from) && KeepsGap(e, from)
    ensures var s' := Step(Binance, s, e); s'.q == s.q && s'.accepted == s.accepted
  {
    if e.Validated? {
      assert !Validate(Binance, s.q, e.m).valid;
      RejectKeepsSequence(Binance, s, e.m);
    } else {
      OthersKeepSequence(Binance, s, e);
      if e.FetchEnds? { FetchKeepsSequence(s, e.end); }
    }
  }

  // ---------------------------------------------------------------- a run into both

  const LATE := Msg(15, 20, 20, 1)

  /** A connection, its snapshot, and one message behind a gap, whose resync gets another snapshot. */
  function LateRun(): seq<Event> {
    [Connect, ConnectDone(1, false), StartSnapshot, FetchEnds(FetchApplied(10)), Arrive(LATE), Validated(LATE),
     FetchEnds(FetchApplied(30))]
  }

  /** After it the book is frozen and counts as synced, and the validator stands before the gap. */
  lemma LateRunFreezes()
    ensures var s := Run(Binance, LateRun());
            Frozen(s) && s.synced && s.hasBook && s.connected && Gapped(s, 15)
  {
    RunNext(0); RunNext(1); RunNext(2); RunNext(3); RunNext(4); RunNext(5); RunNext(6);
    assert LateRun()[..0] == [] && LateRun()[..7] == LateRun();
    LateConnects();
    LateSnapshot(Run(Binance, LateRun()[..2]));
    LateGap(Run(Binance, LateRun()[..4]));
    LateResync(Run(Binance, LateRun()[..6]));
  }

  predicate OnFirst(s: State, snapshots: int, fetching: nat) {
    && s.connected && s.currentEpoch == 1 && s.q == SeqState(0, 1) && s.validating == multiset{}
    && s.bookEpoch == snapshots && s.fetching == fetching && (snapshots > 0 ==> s.hasBook)
  }

  lemma LateConnects()
    ensures OnFirst(Step(Binance, Step(Binance, START, Connect), ConnectDone(1, false)), 0, 0)
  {
  }

  lemma LateSnapshot(s: State)
    requires OnFirst(s, 0, 0)
    ensures var s' := Step(Binance, Step(Binance, s, StartSnapshot), FetchEnds(FetchApplied(10)));
            OnFirst(s', 1, 0) && s'.synced
  {
  }

  lemma LateGap(s: State)
    requires OnFirst(s, 1, 0) && s.synced
    ensures var s' := Step(Binance, Step(Binance, s, Arrive(LATE)), Validated(LATE));
            OnFirst(s', 1, 1) && !s'.synced
  {
  }

  lemma LateResync(s: State)
    requires OnFirst(s, 1, 1)
    ensures var s' := Step(Binance, s, FetchEnds(FetchApplied(30)));
            Frozen(s') && s'.synced && s'.hasBook && s'.connected && Gapped(s', 15)
  {
  }

  lemma RunNext(k: nat)
    requires k < |LateRun()|
    ensures Run(Binance, LateRun()[..k + 1]) == Step(Binance, Run(Binance, LateRun()[..k]), LateRun()[k])
  {
    assert LateRun()[..k + 1][..k] == LateRun()[..k];
  }

  // ---------------------------------------------------------------- sequence numbers

  /** Every number above base up to lastU lies in the range of some update. */
  ghost predicate Covers(accepted: seq<Msg>, base: int, lastU: int) {
    forall n :: base < n <= lastU ==> Covered(accepted, n)
  }

  ghost predicate Covered(accepted: seq<Msg>, n: int) {
    exists i :: 0 <= i < |accepted| && accepted[i].firstU <= n <= accepted[i].finalU
  }

  /** Ends of the accepted updates rise strictly from base to lastU. */
  ghost predicate Rises(mode: Mode, accepted: seq<Msg>, base: int, lastU: int) {
    && (forall i :: 0 <= i < |accepted| ==> base < LastOf(mode, accepted[i]) <= lastU)
    && (forall i, j :: 0 <= i < j < |accepted| ==> LastOf(mode, accepted[i]) < LastOf(mode, accepted[j]))
  }

  lemma AcceptKeepsCover(accepted: seq<Msg>, base: int, lastU: int, m: Msg)
    requires Covers(accepted, base, lastU) && m.firstU <= lastU + 1 && lastU < m.finalU
    ensures Covers(accepted + [m], base, m.finalU)
  {
    var all := accepted + [m];
    forall n | base < n <= m.finalU ensures Covered(all, n) {
      if n <= lastU {
        assert Covered(accepted, n);
        var i :| 0 <= i < |accepted| && accepted[i].firstU <= n <= accepted[i].finalU;
        assert all[i] == accepted[i];
      } else {
        assert all[|accepted|] == m;
      }
    }
  }

  /** What the validator has accepted since its last reset: in both modes the updates rise strictly
      up to lastU; on Binance they also cover every number from the base on. */
  ghost predicate AcceptedInOrder(mode: Mode, s: State) {
    s.q.SeqState? ==>
      && s.base <= s.q.lastU
      && Rises(mode, s.accepted, s.base, s.q.lastU)
      && (mode.Binance? ==> Covers(s.accepted, s.base, s.q.lastU))
  }

  lemma AcceptKeepsOrder(mode: Mode, s: State, m: Msg)
    requires AcceptedInOrder(mode, s) && m in s.validating && Validate(mode, s.q, m).valid
    ensures AcceptedInOrder(mode, Step(mode, s, Validated(m)))
  {
    var s' := Step(mode, s, Validated(m));
    assert s'.accepted == s.accepted + [m] && s'.q.lastU == LastOf(mode, m) && s'.base == s.base;
    if mode.Binance? {
      AcceptKeepsCover(s.accepted, s.base, s.q.lastU, m);
    }
  }

  lemma StepKeepsOrder(mode: Mode, s: State, e: Event)
    requires AcceptedInOrder(mode, s)
    ensures AcceptedInOrder(mode, Step(mode, s, e))
  {
    if e.Validated? && e.m in s.validating && Validate(mode, s.q, e.m).valid {
      AcceptKeepsOrder(mode, s, e.m);
    } else {
      OthersKeepSequence(mode, s, e);
    }
  }

  /** Without an acceptance the validator stays where it is, or starts anew. */
  predicate SameSequence(s: State, s': State) {
    s'.q == s.q && s'.base == s.base && s'.accepted == s.accepted
  }

  predicate NewSequence(s: State) {
    s.q.SeqState? && s.base == s.q.lastU && s.accepted == []
  }

  lemma OthersKeepSequence(mode: Mode, s: State, e: Event)
    requires !(e.Validated? && e.m in s.validating && Validate(mode, s.q, e.m).valid)
    ensures SameSequence(s, Step(mode, s, e)) || NewSequence(Step(mode, s, e))
  {
    match e
    case ConnectDone(epoch, raised) => ConnectMayReset(s, epoch, raised);
    case Validated(m) => RejectKeepsSequence(mode, s, m);
    case FetchEnds(end) => FetchKeepsSequence(s, end);
    case Arrive(m) => ArrivalKeepsSequence(s, m);
    case _ =>
  }

  lemma ConnectMayReset(s: State, epoch: int, raised: bool)
    ensures SameSequence(s, FinishConnect(s, epoch, raised)) || NewSequence(FinishConnect(s, epoch, raised))
  {
  }

  lemma FetchKeepsSequence(s: State, end: FetchEnd)
    ensures SameSequence(s, FinishFetch(s, end))
  {
  }

  lemma ArrivalKeepsSequence(s: State, m: Msg)
    ensures SameSequence(s, TakeMessage(s, m))
  {
  }

  lemma RejectKeepsSequence(mode: Mode, s: State, m: Msg)
    requires m !in s.validating || !Validate(mode, s.q, m).valid
    ensures SameSequence(s, FinishMessage(mode, s, m))
  {
  }

  lemma {:induction false} AcceptedUpdatesAreInOrder(mode: Mode, es: seq<Event>)
    ensures AcceptedInOrder(mode, Run(mode, es))
  {
    if |es| > 0 {
      AcceptedUpdatesAreInOrder(mode, es[..|es| - 1]);
      StepKeepsOrder(mode, Run(mode, es[..|es| - 1]), es[|es| - 1]);
    }
  }

  /** On MEXC nothing is covered: any higher version is accepted and changes the book, however many
      it jumps over. The comment on the validator asks for an increment of one. */
  lemma MexcAcceptsJumps(s: State, m: Msg)
    requires s.q.SeqState? && s.q.epoch == m.epoch == s.bookEpoch && s.hasBook && m in s.validating
    ensures var s' := Step(Mexc, s, Validated(m));
            && (s'.bookLog == s.bookLog + [Change(m.epoch)] <==> m.firstU > s.q.lastU)
            && (s'.accepted == s.accepted + [m] <==> m.firstU > s.q.lastU)
  {
    assert s.bookLog + [Change(m.epoch)] != s.bookLog;
    assert s.accepted + [m] != s.accepted;
  }

  /** On Binance an update is accepted and changes the book exactly if its range takes up the sequence:
      it starts no later than the next number and does not end before it. One that starts later asks for
      a resync. */
  lemma BinanceAcceptsInSequence(s: State, m: Msg)
    requires s.q.SeqState? && s.q.epoch == m.epoch == s.bookEpoch && s.hasBook && m in s.validating
    ensures var s', next := Step(Binance, s, Validated(m)), s.q.lastU + 1;
            && (s'.accepted == s.accepted + [m] <==> m.firstU <= next <= m.finalU)
            && (s'.bookLog == s.bookLog + [Change(m.epoch)] <==> m.firstU <= next <= m.finalU)
            && (m.firstU <= next <= m.finalU ==> s'.q == SeqState(m.finalU, m.epoch) && s'.synced == s.synced)
            && (next < m.firstU <= m.finalU ==> !s'.synced && s'.fetching == s.fetching + 1 && s'.q == s.q)
            && (m.finalU < next ==> s'.q == s.q && s'.synced == s.synced && s'.fetching == s.fetching)
  {
    assert s.bookLog + [Change(m.epoch)] != s.bookLog;
    assert s.accepted + [m] != s.accepted;
  }

  predicate IsAhead(d: Queued, seqNo: int, epoch: int) { d.seqNo > seqNo && d.epoch == epoch }

  /** These are all places of the queue with an update ahead of the snapshot, in order. */
  ghost predicate PlacesAhead(queue: seq<Queued>, seqNo: int, epoch: int, places: seq<nat>) {
    && (forall k :: 0 <= k < |places| ==> places[k] < |queue| && IsAhead(queue[places[k]], seqNo, epoch))
    && (forall j, k :: 0 <= j < k < |places| ==> places[j] < places[k])
    && (forall i: nat :: i < |queue| && IsAhead(queue[i], seqNo, epoch) ==> i in places)
  }

  ghost predicate IsPicked(queue: seq<Queued>, places: seq<nat>, kept: seq<Queued>) {
    && |kept| == |places|
    && forall k :: 0 <= k < |places| ==> places[k] < |queue| && kept[k] == queue[places[k]]
  }

  /** A snapshot keeps, in order and with repeats, exactly the queued updates ahead of it that carry its
      epoch. */
  lemma {:induction false} KeptIsAhead(queue: seq<Queued>, seqNo: int, epoch: int) returns (places: seq<nat>)
    ensures PlacesAhead(queue, seqNo, epoch, places) && IsPicked(queue, places, Keep(queue, seqNo, epoch))
  {
    places := [];
    if |queue| > 0 {
      var n := |queue| - 1;
      var before := KeptIsAhead(queue[..n], seqNo, epoch);
      PlacesGrow(queue, seqNo, epoch, before);
      places := if IsAhead(queue[n], seqNo, epoch) then before + [n] else before;
      KeepsOneMore(queue, seqNo, epoch, before);
    }
  }

  lemma KeepsOneMore(queue: seq<Queued>, seqNo: int, epoch: int, before: seq<nat>)
    requires |queue| > 0 && IsPicked(queue[..|queue| - 1], before, Keep(queue[..|queue| - 1], seqNo, epoch))
    ensures var n := |queue| - 1;
            IsPicked(queue, if IsAhead(queue[n], seqNo, epoch) then before + [n] else before,
                     Keep(queue, seqNo, epoch))
  {
    var kept := Keep(queue[..|queue| - 1], seqNo, epoch);
    OnePicked(queue, before, kept);
    assert kept + [] == kept;
  }

  lemma OnePicked(queue: seq<Queued>, places: seq<nat>, kept: seq<Queued>)
    requires |queue| > 0 && IsPicked(queue[..|queue| - 1], places, kept)
    ensures IsPicked(queue, places, kept) && IsPicked(queue, places + [|queue| - 1], kept + [queue[|queue| - 1]])
  {
  }

  lemma PlacesGrow(queue: seq<Queued>, seqNo: int, epoch: int, places: seq<nat>)
    requires |queue| > 0 && PlacesAhead(queue[..|queue| - 1], seqNo, epoch, places)
    ensures var n := |queue| - 1;
            PlacesAhead(queue, seqNo, epoch, if IsAhead(queue[n], seqNo, epoch) then places + [n] else places)
  {
    var n := |queue| - 1;
    var all := if IsAhead(queue[n], seqNo, epoch) then places + [n] else places;
    forall i: nat | i < |queue| && IsAhead(queue[i], seqNo, epoch) ensures i in all {
      if i < n { assert queue[..n][i] == queue[i] && i in places; }
    }
  }

  /** A connect on a living connection does nothing; on a dead one it opens the next epoch, unsynced. Its
      end resets the validator, unless set_epoch raised. */
  lemma ConnectsExactly(mode: Mode, s: State, epoch: int, raised: bool)
    ensures var s' := Step(mode, s, Connect);
            if s.connected then s' == s
            else s'.currentEpoch == s.currentEpoch + 1 && !s'.synced && s'.currentEpoch in s'.connecting
    ensures epoch in s.connecting ==>
              var s' := Step(mode, s, ConnectDone(epoch, raised));
              s'.connected && s'.q == if raised then s.q else SeqState(0, epoch)
  {
  }

  /** The end of a connection's task, the start of a fetch, and set_last_u, which moves the mark of the
      validator within its epoch. */
  lemma SmallSteps(mode: Mode, s: State, u: int)
    ensures !Step(mode, s, TaskEnds).connected
    ensures Step(mode, s, StartSnapshot).fetching == s.fetching + 1
    ensures Step(mode, s, SetLastU(u)).q == SeqState(u, if s.q.SeqState? then s.q.epoch else 0)
  {
  }

  /** The pre-sync queue takes the current updates that arrive while the book is unsynced, is cleared by a
      connect, and a snapshot picks from it what lies ahead; nothing else touches it. */
  lemma QueueFollows(mode: Mode, s: State, e: Event) returns (places: seq<nat>)
    ensures var queue, queue' := s.queue, Step(mode, s, e).queue;
            if e.Arrive? && e.m.epoch == s.currentEpoch != 0 && !s.synced && s.hasBook
            then queue' == queue + [Queued(e.m.seqNo, e.m.epoch)]
            else if e.ConnectDone? && e.epoch in s.connecting then queue' == []
            else if e.FetchEnds? && e.end.FetchApplied? && s.fetching > 0
            then PlacesAhead(queue, e.end.seqNo, s.bookEpoch + 1, places) && IsPicked(queue, places, queue')
            else queue' == queue
  {
    places := [];
    if e.FetchEnds? && e.end.FetchApplied? { places := KeptIsAhead(s.queue, e.end.seqNo, s.bookEpoch + 1); }
  }

  // ---------------------------------------------------------------- the objects

  class SequenceValidator {
    const mode: Mode
    var states: map<string, SeqState>

    constructor (mode: Mode)
      ensures this.mode == mode && states == map[]
    {
      this.mode := mode;
      states := map[];
    }

    ghost function StateOf(symbol: string): SeqState
      reads this
    {
      if symbol in states then states[symbol] else NoState
    }

    /** The critical section of validate. Only a valid update moves the state of its symbol. */
    method ValidateUpdate(symbol: string, m: Msg) returns (v: Verdict, lastU: int)
      modifies this
      ensures v == Validate(mode, old(StateOf(symbol)), m)
      ensures StateOf(symbol) == if v.valid then SeqState(LastOf(mode, m), m.epoch) else old(StateOf(symbol))
      ensures lastU == if StateOf(symbol).NoState? then 0 else StateOf(symbol).lastU
      ensures forall other :: other != symbol ==> StateOf(other) == old(StateOf(other))
    {
      if symbol !in states || states[symbol].NoState? { return Verdict(false, false, true), 0; }
      var q := states[symbol];
      if m.epoch != q.epoch { return Verdict(false, false, true), q.lastU; }
      if mode == Mexc {
        if m.firstU <= q.lastU { return Verdict(false, false, false), q.lastU; }
        states := states[symbol := SeqState(m.firstU, m.epoch)];
        return Verdict(true, false, false), m.firstU;
      }
      if m.finalU <= q.lastU { return Verdict(false, false, false), q.lastU; }
      if m.firstU > q.lastU + 1 { return Verdict(false, true, true), q.lastU; }
      states := states[symbol := SeqState(m.finalU, m.epoch)];
      return Verdict(true, false, false), m.finalU;
    }

    method SetEpoch(symbol: string, epoch: int)
      modifies this
      ensures StateOf(symbol) == SeqState(0, epoch)
      ensures forall other :: other != symbol ==> StateOf(other) == old(StateOf(other))
    {
      states := states[symbol := SeqState(0, epoch)];
    }

    method SetLastU(symbol: string, u: int)
      modifies this
      ensures StateOf(symbol) == SeqState(u, if old(StateOf(symbol)).NoState? then 0 else old(StateOf(symbol)).epoch)
      ensures forall other :: other != symbol ==> StateOf(other) == old(StateOf(other))
    {
      var epoch := if symbol in states && states[symbol].SeqState? then states[symbol].epoch else 0;
      states := states[symbol := SeqState(u, epoch)];
    }
  }

  /** What a book knows of connections: its epoch, one higher with every snapshot, and the updates
      queued before the first sync. */
  class EpochBook {
    var epoch: int
    var queue: seq<Queued>

    constructor ()
      ensures epoch == 0 && queue == []
    {
      epoch, queue := 0, [];
    }

    method ApplyBatch(batchEpoch: int) returns (changed: bool)
      ensures changed == (batchEpoch == epoch)
    {
      changed := batchEpoch == epoch;
    }

    method OnSnapshot(seqNo: int)
      modifies this
      ensures epoch == old(epoch) + 1 && queue == Keep(old(queue), seqNo, epoch)
    {
      epoch := epoch + 1;
      var kept: seq<Queued> := [];
      for i := 0 to |queue|
        invariant epoch == old(epoch) + 1 && queue == old(queue) && kept == Keep(queue[..i], seqNo, epoch)
      {
        assert queue[..i + 1][..i] == queue[..i];
        if queue[i].seqNo > seqNo && queue[i].epoch == epoch {
          kept := kept + [queue[i]];
        }
      }
      assert queue[..|queue|] == queue;
      queue := kept;
    }
  }

  /** The manager, for one symbol. Each method is one stretch of a coroutine between awaits. */
  class WsManager {
    const symbol: string
    const validator: SequenceValidator
    const book: EpochBook
    var currentEpoch: int
    var synced: bool
    var hasTask: bool
    var hasBook: bool
    ghost var state: State

    ghost predicate Valid()
      reads this, validator, book
    {
      && currentEpoch == state.currentEpoch && synced == state.synced
      && hasTask == state.connected && hasBook == state.hasBook
      && validator.StateOf(symbol) == state.q
      && book.epoch == state.bookEpoch && book.queue == state.queue
    }

    constructor (symbol: string, validator: SequenceValidator, book: EpochBook)
      requires validator.StateOf(symbol) == NoState && book.epoch == 0 && book.queue == []
      ensures Valid() && state == START
      ensures this.symbol == symbol && this.validator == validator && this.book == book
    {
      this.symbol, this.validator, this.book := symbol, validator, book;
      currentEpoch, synced, hasTask, hasBook := 0, false, false, false;
      state := START;
    }

    /** connect, up to the await of set_epoch. */
    method ConnectStart() returns (epoch: int, go: bool)
      requires Valid()
      modifies this
      ensures Valid() && state == Step(validator.mode, old(state), Connect)
      ensures go ==> epoch in state.connecting
    {
      if hasTask { return currentEpoch, false; }
      epoch, go := currentEpoch + 1, true;
      currentEpoch := epoch;
      synced := false;
      state := Step(validator.mode, state, Connect);
    }

    /** set_epoch, which may raise, and the rest of connect, which goes on all the same. */
    method ConnectFinish(epoch: int, raised: bool)
      requires Valid() && epoch in state.connecting
      modifies this, validator, book
      ensures Valid() && state == Step(validator.mode, old(state), ConnectDone(epoch, raised))
    {
      if !raised { validator.SetEpoch(symbol, epoch); }
      book.queue := [];
      hasTask := true;
      state := Step(validator.mode, state, ConnectDone(epoch, raised));
    }

    method TaskDone()
      requires Valid()
      modifies this
      ensures Valid() && state == Step(validator.mode, old(state), TaskEnds)
    {
      hasTask := false;
      state := Step(validator.mode, state, TaskEnds);
    }

    /** handle_message, up to the await of validate. */
    method MessageStart(m: Msg) returns (go: bool)
      requires Valid()
      modifies this, book
      ensures Valid() && state == Step(validator.mode, old(state), Arrive(m))
      ensures go ==> m in state.validating
    {
      go := false;
      ghost var s0 := state;
      if m.epoch != currentEpoch || currentEpoch == 0 { return; }
      state := Step(validator.mode, s0, Arrive(m));
      if !synced {
        if hasBook {
          book.queue := book.queue + [Queued(m.seqNo, m.epoch)];
        }
        return;
      }
      go := true;
    }

    /** validate, and the rest of handle_message up to a fetch; changed: the book got the batch. */
    method MessageFinish(m: Msg) returns (changed: bool)
      requires Valid() && m in state.validating
      modifies this, validator
      ensures Valid() && state == Step(validator.mode, old(state), Validated(m))
      ensures changed <==> state.bookLog == old(state).bookLog + [Change(m.epoch)]
    {
      ghost var s0 := state;
      assert s0.bookLog + [Change(m.epoch)] != s0.bookLog;
      var v, lastU := validator.ValidateUpdate(symbol, m);
      state := Step(validator.mode, s0, Validated(m));
      changed := false;
      if v.resync {
        synced := false;
        return;
      }
      if v.valid && hasBook {
        changed := book.ApplyBatch(m.epoch);
      }
    }

    method SnapshotStart()
      requires Valid()
      modifies this`state
      ensures Valid() && state == Step(validator.mode, old(state), StartSnapshot)
    {
      state := Step(validator.mode, state, StartSnapshot);
    }

    /** The end of a fetch, of on_snapshot or of resync. */
    method FetchFinish(end: FetchEnd)
      requires Valid() && state.fetching > 0
      modifies this, book
      ensures Valid() && state == Step(validator.mode, old(state), FetchEnds(end))
    {
      if end.FetchApplied? {
        book.OnSnapshot(end.seqNo);
        hasBook := true;
      }
      state := Step(validator.mode, state, FetchEnds(end));
      if end.FetchRaised? { return; }
      synced := true;
    }
  }
}
