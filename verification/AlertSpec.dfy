/** Alert delivery: an in-memory queue of critical alerts, a buffer of warnings, a circuit breaker,
  and the status column of the alert table.

  A coroutine runs to its next await as one step. The awaits are the sends; any number of drain
  callers wait in sends of their own, and the process may be restarted between any two steps. Any
  write to the database may raise: the statement, or only its commit.
 */
module AlertSpec {
  import opened Basics

  datatype Severity = Info | Warning | Critical
  datatype Status = Pending | Sending | Delivered | Failed | Expired

  /** A row of the alert table; run is the process that wrote it. */
  datatype Row = Row(severity: Severity, ts: int, status: Status, run: nat)

  /** The table as the agent's connection sees it, and as it was last committed. */
  datatype Table = Table(rows: seq<Row>, disk: seq<Row>)

  /** Which write of a step raises, counted from 0. If only its commit raises, the statement stays in
      the open transaction: the connection sees it, and the next commit carries it along. */
  datatype Fault = NoFault | At(n: nat, stays: bool)

  datatype Config = Config(
    batchSize: nat, batchWindow: int, dedupWindow: int, failThreshold: nat, openFor: int)

  datatype Breaker = Closed | Open(until: int) | HalfOpen

  datatype Item = Item(id: nat, count: nat)

  /** A send some coroutine waits in: one row, after which the critical loop goes on or ends, or a
      batch with the rows it locked and the items it carries. */
  datatype InFlight = Single(id: nat, goesOn: bool) | Batch(ids: seq<nat>, items: seq<Item>)

  datatype Key = Key(symbol: string, eventType: string)
  datatype Entry = Entry(id: nat, last: int, count: nat)

  datatype Memory = Memory(
    run: nat, critQ: seq<nat>, buffer: seq<Item>, dedup: map<Key, Entry>,
    batchStart: Option<int>, breaker: Breaker, fails: nat, tasks: map<nat, InFlight>)

  /** History. sent: the rows handed to a sender, in order. Of this process: the rows popped from the
      queue whose lock raised, those of a batch whose lock raised or was not tried, and those whose
      insert raised at its commit. */
  datatype Past = Past(sent: seq<nat>, raisedPops: set<nat>, dropped: set<nat>, raisedInserts: set<nat>)

  datatype State = State(table: Table, mem: Memory, past: Past)

  datatype Event =
    | InfoEmitted(ts: int, f: Fault)
    | CriticalEmitted(ts: int, f: Fault)
    | WarningEmitted(ts: int, key: Key, now: int, f: Fault)
    | DrainCalled(task: nat, now: int, f: Fault)            // up to its first await
    | SendEnded(task: nat, ok: bool, now: int, f: Fault)    // a post is over, up to the next await
    | Cancelled(task: nat)
    | Restarted(cutoff: int, f: Fault)                      // a new process on the table, with its sweep
    | Committed                                             // by another user of the connection

  function FreshMemory(run: nat): Memory {
    Memory(run, [], [], map[], None, Closed, 0, map[])
  }

  const START := State(Table([], []), FreshMemory(0), Past([], {}, {}, {}))

  // ---------------------------------------------------------------- writes

  predicate Raises(f: Fault) { f.At? && f.n == 0 }

  /** The fault as the writes after a write that passed see it. */
  function Later(f: Fault): Fault {
    if f.At? && f.n > 0 then f.(n := f.n - 1) else f
  }

  /** A statement that takes the rows to these, and its commit. */
  function Write(t: Table, rows: seq<Row>, f: Fault): Table {
    if !Raises(f) then Table(rows, rows) else if f.stays then t.(rows := rows) else t
  }

  predicate IsPending(rows: seq<Row>, id: nat) {
    id < |rows| && rows[id].status == Pending
  }

  /** The optimistic lock: only a pending row becomes sending. */
  function Lock(rows: seq<Row>, id: nat): seq<Row> {
    if IsPending(rows, id) then rows[id := rows[id].(status := Sending)] else rows
  }

  function SetStatus(rows: seq<Row>, id: nat, status: Status): seq<Row> {
    if id < |rows| then rows[id := rows[id].(status := status)] else rows
  }

  /** The startup sweep. */
  function Sweep(rows: seq<Row>, cutoff: int): seq<Row> {
    seq(|rows|, i requires 0 <= i < |rows| =>
      if rows[i].status == Pending && rows[i].ts < cutoff then rows[i].(status := Expired) else rows[i])
  }

  /** The oldest pending critical row among the first n, whichever process wrote it. */
  function OldestCritical(rows: seq<Row>, n: nat): (best: Option<nat>)
    requires n <= |rows|
    ensures best.Some? ==> best.value < n
  {
    if n == 0 then None
    else
      var best := OldestCritical(rows, n - 1);
      var row := rows[n - 1];
      if row.status == Pending && row.severity == Critical && (best.None? || row.ts < rows[best.value].ts)
      then Some(n - 1)
      else best
  }

  // ---------------------------------------------------------------- loops of writes

  datatype PopEnd = PopEnd(table: Table, rest: seq<nat>, found: Option<nat>, raised: Option<nat>, f: Fault)

  /** Pops the critical queue until a lock succeeds or raises. The pop comes before the lock. */
  function PopLoop(t: Table, queue: seq<nat>, f: Fault): PopEnd
    decreases |queue|
  {
    if |queue| == 0 then PopEnd(t, [], None, None, f)
    else
      var t' := Write(t, Lock(t.rows, queue[0]), f);
      if Raises(f) then PopEnd(t', queue[1..], None, Some(queue[0]), f)
      else if IsPending(t.rows, queue[0]) then PopEnd(t', queue[1..], Some(queue[0]), None, Later(f))
      else PopLoop(t', queue[1..], Later(f))
  }

  /** left: the rows from the one on whose lock raised; empty if none did. */
  datatype LockEnd = LockEnd(table: Table, locked: seq<nat>, left: seq<nat>)

  /** Locks the rows of a batch one by one, until a lock raises. */
  function LockLoop(t: Table, ids: seq<nat>, f: Fault): LockEnd
    decreases |ids|
  {
    if |ids| == 0 then LockEnd(t, [], [])
    else
      var t' := Write(t, Lock(t.rows, ids[0]), f);
      if Raises(f) then LockEnd(t', [], ids)
      else
        var rest := LockLoop(t', ids[1..], Later(f));
        rest.(locked := (if IsPending(t.rows, ids[0]) then [ids[0]] else []) + rest.locked)
  }

  datatype UpdateEnd = UpdateEnd(table: Table, raised: bool, f: Fault)

  /** Writes the result of a send to its rows, until a write raises. */
  function UpdateLoop(t: Table, ids: seq<nat>, status: Status, f: Fault): UpdateEnd
    decreases |ids|
  {
    if |ids| == 0 then UpdateEnd(t, false, f)
    else
      var t' := Write(t, SetStatus(t.rows, ids[0], status), f);
      if Raises(f) then UpdateEnd(t', true, f) else UpdateLoop(t', ids[1..], status, Later(f))
  }

  // ---------------------------------------------------------------- steps

  function Ids(items: seq<Item>): seq<nat> {
    seq(|items|, i requires 0 <= i < |items| => items[i].id)
  }

  function IdsOf(f: InFlight): seq<nat> {
    match f
    case Single(id, _) => [id]
    case Batch(ids, _) => ids
  }

  function Elems(ids: seq<nat>): set<nat> {
    set id | id in ids
  }

  /** A sender gets these rows. */
  function Handed(s: State, task: nat, f: InFlight): State {
    s.(mem := s.mem.(tasks := s.mem.tasks[task := f]), past := s.past.(sent := s.past.sent + IdsOf(f)))
  }

  predicate Ready(c: Config, m: Memory, now: int) {
    && |m.buffer| > 0
    && (|m.buffer| >= c.batchSize || (m.batchStart.Some? && now - m.batchStart.value >= c.batchWindow))
  }

  function BatchLength(c: Config, m: Memory): (n: nat)
    ensures n <= |m.buffer|
  {
    if c.batchSize < |m.buffer| then c.batchSize else |m.buffer|
  }

  /** Memory after a batch has been cut off the buffer, which comes before its locks. */
  function CutBatch(c: Config, m: Memory, now: int): Memory {
    var rest := m.buffer[BatchLength(c, m)..];
    m.(buffer := rest, batchStart := if |rest| == 0 then None else Some(now))
  }

  /** The first batch of the buffer after its locks. */
  function LockBatch(c: Config, s: State, f: Fault): LockEnd {
    LockLoop(s.table, Ids(s.mem.buffer[..BatchLength(c, s.mem)]), f)
  }

  /** State after the locks of a batch, before it is handed over. */
  function Locked(c: Config, s: State, now: int, f: Fault): State {
    var end := LockBatch(c, s, f);
    State(end.table, CutBatch(c, s.mem, now), s.past.(dropped := s.past.dropped + Elems(end.left)))
  }

  function Flush(c: Config, s: State, task: nat, now: int, f: Fault): State {
    var end := LockBatch(c, s, f);
    if |end.left| > 0 || |end.locked| == 0 then Locked(c, s, now, f)
    else Handed(Locked(c, s, now, f), task, Batch(end.locked, s.mem.buffer[..BatchLength(c, s.mem)]))
  }

  function OneOf(x: Option<nat>): set<nat> {
    if x.Some? then {x.value} else {}
  }

  /** State after the critical loop, before a row is handed over. */
  function Popped(s: State, f: Fault): State {
    var end := PopLoop(s.table, s.mem.critQ, f);
    State(end.table, s.mem.(critQ := end.rest), s.past.(raisedPops := s.past.raisedPops + OneOf(end.raised)))
  }

  /** The critical loop and the warning flush behind it, up to the next await. */
  function DrainClosed(c: Config, s: State, task: nat, now: int, f: Fault): State {
    var end := PopLoop(s.table, s.mem.critQ, f);
    var s1 := Popped(s, f);
    if end.raised.Some? then s1
    else if end.found.Some? then Handed(s1, task, Single(end.found.value, true))
    else if Ready(c, s1.mem, now) then Flush(c, s1, task, now, end.f)
    else s1
  }

  /** State after the probe's lock, before the row is handed over. */
  function Probed(s: State, id: nat, f: Fault): State {
    s.(table := Write(s.table, Lock(s.table.rows, id), f))
  }

  /** A query that raises has the effect of a lock whose statement raises: none. */
  function HalfOpenTest(s: State, task: nat, f: Fault): State {
    var hit := OldestCritical(s.table.rows, |s.table.rows|);
    if hit.None? then s
    else
      var s1 := Probed(s, hit.value, f);
      if Raises(f) then s1 else Handed(s1, task, Single(hit.value, false))
  }

  function DrainOnce(c: Config, s: State, task: nat, now: int, f: Fault): State {
    if task in s.mem.tasks || (s.mem.breaker.Open? && now < s.mem.breaker.until) then s
    else if s.mem.breaker.Closed? then DrainClosed(c, s, task, now, f)
    else HalfOpenTest(s.(mem := s.mem.(breaker := HalfOpen)), task, f)
  }

  function OnSuccess(m: Memory): Memory { m.(fails := 0, breaker := Closed) }

  function OnFinalFail(c: Config, m: Memory, now: int): Memory {
    m.(fails := m.fails + 1,
       breaker := if m.breaker.HalfOpen? || m.fails + 1 >= c.failThreshold then Open(now + c.openFor) else m.breaker)
  }

  function Results(s: State, task: nat, ok: bool, f: Fault): UpdateEnd
    requires task in s.mem.tasks
  {
    UpdateLoop(s.table, IdsOf(s.mem.tasks[task]), if ok then Delivered else Failed, f)
  }

  /** State after the results of a send, before the breaker. */
  function Resulted(s: State, task: nat, ok: bool, f: Fault): State
    requires task in s.mem.tasks
  {
    s.(table := Results(s, task, ok, f).table, mem := s.mem.(tasks := s.mem.tasks - {task}))
  }

  function Judged(c: Config, s: State, ok: bool, now: int): State {
    s.(mem := if ok then OnSuccess(s.mem) else OnFinalFail(c, s.mem, now))
  }

  /** The end of a send. A status write that raises leaves the breaker as it was and ends the loop. */
  function SendEnds(c: Config, s: State, task: nat, ok: bool, now: int, f: Fault): State
    requires task in s.mem.tasks
  {
    var send, end, s1 := s.mem.tasks[task], Results(s, task, ok, f), Resulted(s, task, ok, f);
    if end.raised then s1
    else if send.Single? && send.goesOn then DrainClosed(c, Judged(c, s1, ok, now), task, now, end.f)
    else Judged(c, s1, ok, now)
  }

  /** Merges a warning into the buffered one of the same key, if that is recent and still there. */
  predicate Merges(c: Config, m: Memory, key: Key, now: int) {
    && key in m.dedup && now - m.dedup[key].last <= c.dedupWindow
    && IndexOf(m.buffer, m.dedup[key].id) < |m.buffer|
  }

  /** Where a row sits in the buffer; its length if it does not. */
  function IndexOf(buffer: seq<Item>, id: nat): (i: nat)
    ensures i <= |buffer| && (i < |buffer| ==> buffer[i].id == id)
    ensures forall k :: 0 <= k < i ==> buffer[k].id != id
  {
    if |buffer| == 0 || buffer[0].id == id then 0 else 1 + IndexOf(buffer[1..], id)
  }

  /** The buffer with one more warning counted at a position. */
  function Bump(buffer: seq<Item>, i: nat): seq<Item>
    requires i < |buffer|
  {
    buffer[i := buffer[i].(count := buffer[i].count + 1)]
  }

  function Merged(c: Config, m: Memory, key: Key, now: int): Memory
    requires Merges(c, m, key, now)
  {
    var i := IndexOf(m.buffer, m.dedup[key].id);
    m.(buffer := Bump(m.buffer, i), dedup := m.dedup[key := Entry(m.dedup[key].id, now, m.buffer[i].count + 1)])
  }

  function Buffered(m: Memory, id: nat, key: Key, now: int): Memory {
    m.(buffer := m.buffer + [Item(id, 1)], dedup := m.dedup[key := Entry(id, now, 1)],
       batchStart := if m.batchStart.None? then Some(now) else m.batchStart)
  }

  /** A new pending row. An insert that raises at its commit leaves a row that memory never hears of. */
  function Insert(s: State, severity: Severity, ts: int, f: Fault): State {
    var rows := s.table.rows;
    s.(table := Write(s.table, rows + [Row(severity, ts, Pending, s.mem.run)], f),
       past := if Raises(f) && f.stays then s.past.(raisedInserts := s.past.raisedInserts + {|rows|}) else s.past)
  }

  function EmitInfo(s: State, ts: int, f: Fault): State {
    var s1 := Insert(s, Info, ts, f);
    if Raises(f) then s1
    else s1.(table := Write(s1.table, SetStatus(s1.table.rows, |s.table.rows|, Delivered), Later(f)))
  }

  function EmitCritical(s: State, ts: int, f: Fault): State {
    var s1 := Insert(s, Critical, ts, f);
    if Raises(f) then s1 else s1.(mem := s1.mem.(critQ := s1.mem.critQ + [|s.table.rows|]))
  }

  function EmitWarning(c: Config, s: State, ts: int, key: Key, now: int, f: Fault): State {
    if Merges(c, s.mem, key, now) then s.(mem := Merged(c, s.mem, key, now))
    else
      var s1 := Insert(s, Warning, ts, f);
      if Raises(f) then s1 else s1.(mem := Buffered(s1.mem, |s.table.rows|, key, now))
  }

  /** What was not committed is gone; a sweep that raises is caught. */
  function Restart(s: State, cutoff: int, f: Fault): State {
    var disk := s.table.disk;
    State(Write(Table(disk, disk), Sweep(disk, cutoff), f), FreshMemory(s.mem.run + 1), Past(s.past.sent, {}, {}, {}))
  }

  function Step(c: Config, s: State, e: Event): State {
    match e
    case InfoEmitted(ts, f) => EmitInfo(s, ts, f)
    case CriticalEmitted(ts, f) => EmitCritical(s, ts, f)
    case WarningEmitted(ts, key, now, f) => EmitWarning(c, s, ts, key, now, f)
    case DrainCalled(task, now, f) => DrainOnce(c, s, task, now, f)
    case SendEnded(task, ok, now, f) => if task in s.mem.tasks then SendEnds(c, s, task, ok, now, f) else s
    case Cancelled(task) => s.(mem := s.mem.(tasks := s.mem.tasks - {task}))
    case Restarted(cutoff, f) => Restart(s, cutoff, f)
    case Committed => s.(table := Table(s.table.rows, s.table.rows))
  }

  function Run(c: Config, es: seq<Event>): State {
    if |es| == 0 then START else Step(c, Run(c, es[..|es| - 1]), es[|es| - 1])
  }
}
