/** What every interleaving of emits, drains, send results, cancellations, restarts and raising writes
  keeps.
 */
module AlertRuns {
  import opened AlertSpec
  import opened AlertTable

  // ---------------------------------------------------------------- the loops

  /** One row is let go: its lock is tried, and it is lost if that raises. */
  lemma LockOne(t: Table, held: seq<nat>, f: Fault, sent: seq<nat>, run: nat, severity: Severity, lost: set<nat>)
    requires TableOk(t, sent) && severity != Info && |held| > 0 && Holds(t.rows, run, severity, held, lost)
    ensures var t' := Write(t, Lock(t.rows, held[0]), f);
            && TableOk(t', sent) && Moves(t.disk, t'.disk) && LocksOnly(t.rows, t'.rows, severity)
            && Holds(t'.rows, run, severity, held[1..], lost + if Raises(f) then {held[0]} else {})
            && (forall i: nat :: i < |t.rows| && i != held[0] ==> t'.rows[i] == t.rows[i])
            && (!Raises(f) && IsPending(t.rows, held[0]) ==> IsGone(t'.disk, held[0]) && IsSending(t'.rows, held[0]))
  {
    assert IsHeld(t.rows, run, severity, held[0]);
    LockKeeps(t, held[0], f, sent, severity);
    var t' := Write(t, Lock(t.rows, held[0]), f);
    LocksMove(t.rows, t'.rows, severity);
    MovingKeepsHolds(t.rows, t'.rows, run, severity, held, lost);
    LettingGoKeepsHolds(t'.rows, run, severity, held, lost, if Raises(f) then {held[0]} else {});
  }

  /** The critical loop ends with the queue still holding every pending row, except one whose lock
      raised. */
  ghost predicate PopOk(t: Table, queue: seq<nat>, sent: seq<nat>, run: nat, lost: set<nat>, end: PopEnd) {
    && TableOk(end.table, sent) && Moves(t.disk, end.table.disk) && LocksOnly(t.rows, end.table.rows, Critical)
    && Holds(end.table.rows, run, Critical, end.rest, lost + OneOf(end.raised))
    && (forall i: nat :: i < |t.rows| && i !in OneOf(end.found) + OneOf(end.raised) ==> end.table.rows[i] == t.rows[i])
    && (end.raised.Some? ==> end.found.None? && end.raised.value in queue)
    && (end.found.Some? ==> WasTaken(t.rows, end.table, end.found.value) && end.found.value in queue)
    && (end.found.None? && end.raised.None? ==> end.rest == [])
  }

  ghost predicate WasTaken(rows: seq<Row>, t: Table, id: nat) {
    IsPending(rows, id) && IsGone(t.disk, id) && IsSending(t.rows, id)
  }

  lemma {:induction false} PopKeeps(t: Table, queue: seq<nat>, f: Fault, sent: seq<nat>, run: nat, lost: set<nat>)
    requires TableOk(t, sent) && Holds(t.rows, run, Critical, queue, lost)
    ensures PopOk(t, queue, sent, run, lost, PopLoop(t, queue, f))
    decreases |queue|
  {
    if |queue| == 0 {
      assert lost + {} == lost;
      assert forall i :: 0 <= i < |t.rows| ==> LockedOrSame(t.rows[i], t.rows[i], Critical);
      assert Moves(t.disk, t.disk);
    } else {
      LockOne(t, queue, f, sent, run, Critical, lost);
      if !Raises(f) && !IsPending(t.rows, queue[0]) {
        var t' := Write(t, Lock(t.rows, queue[0]), f);
        assert lost + {} == lost && t'.rows == t.rows;
        PopKeeps(t', queue[1..], Later(f), sent, run, lost);
        MovesOn(t.disk, t'.disk, PopLoop(t', queue[1..], Later(f)).table.disk);
      }
    }
  }

  ghost predicate AllPending(rows: seq<Row>, ids: seq<nat>) {
    forall k :: 0 <= k < |ids| ==> IsPending(rows, ids[k])
  }

  lemma LosingKeepsHolds(rows: seq<Row>, run: nat, severity: Severity, ids: seq<nat>, more: seq<nat>, lost: set<nat>)
    requires Holds(rows, run, severity, ids + more, lost)
    ensures Holds(rows, run, severity, more, lost + Elems(ids))
  {
    var held := ids + more;
    forall k | 0 <= k < |more| ensures IsHeld(rows, run, severity, more[k]) && more[k] !in lost + Elems(ids) {
      assert held[|ids| + k] == more[k];
      forall j | 0 <= j < |ids| ensures ids[j] != more[k] { assert held[j] == ids[j]; }
    }
    forall j, k | 0 <= j < k < |more| ensures more[j] != more[k] {
      assert held[|ids| + j] == more[j] && held[|ids| + k] == more[k];
    }
    forall i | i in Elems(ids) ensures i < |rows| {
      var k :| 0 <= k < |ids| && ids[k] == i;
      assert held[k] == i && IsHeld(rows, run, severity, held[k]);
    }
  }

  /** The locks of a batch: all taken, or everything from the raise on is lost. */
  ghost predicate LocksOk(
    t: Table, ids: seq<nat>, more: seq<nat>, sent: seq<nat>, run: nat, lost: set<nat>, end: LockEnd)
  {
    && TableOk(end.table, sent) && Moves(t.disk, end.table.disk) && LocksOnly(t.rows, end.table.rows, Warning)
    && Holds(end.table.rows, run, Warning, more, lost + Elems(end.left)) && AllPending(end.table.rows, more)
    && (forall i: nat :: i < |t.rows| && i !in ids ==> end.table.rows[i] == t.rows[i])
    && (end.left == [] ==> end.locked == ids && forall k :: 0 <= k < |ids| ==> WasTaken(t.rows, end.table, ids[k]))
  }

  lemma {:induction false} LocksKeep(
    t: Table, ids: seq<nat>, more: seq<nat>, f: Fault, sent: seq<nat>, run: nat, lost: set<nat>)
    requires TableOk(t, sent) && Holds(t.rows, run, Warning, ids + more, lost) && AllPending(t.rows, ids + more)
    ensures LocksOk(t, ids, more, sent, run, lost, LockLoop(t, ids, f))
    decreases |ids|
  {
    var held := ids + more;
    if |ids| == 0 {
      NoLocks(t, more, sent, run, lost);
    } else {
      assert held[0] == ids[0] && held[1..] == ids[1..] + more;
      LockOne(t, held, f, sent, run, Warning, lost);
      var t' := Write(t, Lock(t.rows, ids[0]), f);
      OthersStayPending(t, t', held);
      if Raises(f) {
        RaisedLocks(t, t', ids, more, run, lost);
        assert LockLoop(t, ids, f) == LockEnd(t', [], ids);
      } else {
        assert IsPending(t.rows, held[0]);
        LocksKeepRest(t, t', ids, more, f, sent, run, lost);
      }
    }
  }

  lemma NoLocks(t: Table, more: seq<nat>, sent: seq<nat>, run: nat, lost: set<nat>)
    requires TableOk(t, sent) && Holds(t.rows, run, Warning, [] + more, lost) && AllPending(t.rows, [] + more)
    ensures LocksOk(t, [], more, sent, run, lost, LockEnd(t, [], []))
  {
    assert [] + more == more && lost + Elems([]) == lost;
    assert forall i :: 0 <= i < |t.rows| ==> LockedOrSame(t.rows[i], t.rows[i], Warning);
    assert Moves(t.disk, t.disk);
  }

  lemma OthersStayPending(t: Table, t': Table, held: seq<nat>)
    requires |held| > 0 && AllPending(t.rows, held) && |t'.rows| == |t.rows|
    requires forall j, k :: 0 <= j < k < |held| ==> held[j] != held[k]
    requires forall i: nat :: i < |t.rows| && i != held[0] ==> t'.rows[i] == t.rows[i]
    ensures AllPending(t'.rows, held[1..])
  {
    forall k | 0 <= k < |held[1..]| ensures IsPending(t'.rows, held[1..][k]) {
      assert IsPending(t.rows, held[k + 1]) && held[0] != held[k + 1];
    }
  }

  lemma RaisedLocks(t: Table, t': Table, ids: seq<nat>, more: seq<nat>, run: nat, lost: set<nat>)
    requires |ids| > 0 && Holds(t'.rows, run, Warning, ids[1..] + more, lost + {ids[0]})
    requires AllPending(t'.rows, ids[1..] + more)
    ensures Holds(t'.rows, run, Warning, more, lost + Elems(ids)) && AllPending(t'.rows, more)
  {
    LosingKeepsHolds(t'.rows, run, Warning, ids[1..], more, lost + {ids[0]});
    assert ids == [ids[0]] + ids[1..];
    assert lost + {ids[0]} + Elems(ids[1..]) == lost + Elems(ids);
    forall k | 0 <= k < |more| ensures IsPending(t'.rows, more[k]) {
      assert (ids[1..] + more)[|ids[1..]| + k] == more[k];
    }
  }

  lemma LocksKeepRest(
    t: Table, t': Table, ids: seq<nat>, more: seq<nat>, f: Fault, sent: seq<nat>, run: nat, lost: set<nat>)
    requires |ids| > 0 && !Raises(f) && t' == Write(t, Lock(t.rows, ids[0]), f) && IsPending(t.rows, ids[0])
    requires TableOk(t', sent) && Moves(t.disk, t'.disk) && LocksOnly(t.rows, t'.rows, Warning)
    requires Holds(t'.rows, run, Warning, ids[1..] + more, lost + {}) && AllPending(t'.rows, ids[1..] + more)
    requires forall i: nat :: i < |t.rows| && i != ids[0] ==> t'.rows[i] == t.rows[i]
    requires IsGone(t'.disk, ids[0]) && IsSending(t'.rows, ids[0])
    ensures LocksOk(t, ids, more, sent, run, lost, LockLoop(t, ids, f))
    decreases |ids|, 0
  {
    assert lost + {} == lost;
    LocksKeep(t', ids[1..], more, Later(f), sent, run, lost);
    var end := LockLoop(t', ids[1..], Later(f));
    MovesOn(t.disk, t'.disk, end.table.disk);
    LocksOn(t.rows, t'.rows, end.table.rows, Warning);
    assert ids == [ids[0]] + ids[1..];
    assert LockLoop(t, ids, f) == end.(locked := [ids[0]] + end.locked);
    assert Reaches(t'.disk[ids[0]], end.table.disk[ids[0]]);
    assert LockedOrSame(t'.rows[ids[0]], end.table.rows[ids[0]], Warning);
    forall k | end.left == [] && 0 <= k < |ids| ensures WasTaken(t.rows, end.table, ids[k]) {
      if k > 0 {
        assert WasTaken(t'.rows, end.table, ids[1..][k - 1]);
        assert LockedOrSame(t.rows[ids[k]], t'.rows[ids[k]], Warning);
      }
    }
  }

  ghost predicate AllDistinct(ids: seq<nat>) {
    forall j, k :: 0 <= j < k < |ids| ==> ids[j] != ids[k]
  }

  ghost predicate ResultsOk(t: Table, ids: seq<nat>, sent: seq<nat>, t': Table) {
    && TableOk(t', sent) && Moves(t.disk, t'.disk) && Moves(t.rows, t'.rows) && |t'.rows| == |t.rows|
    && forall i: nat :: i < |t.rows| && i !in ids ==> t'.rows[i] == t.rows[i]
  }

  /** Writing results, to the end or to a raise, moves only rows that are being sent. */
  lemma {:induction false} ResultsKeep(t: Table, ids: seq<nat>, status: Status, f: Fault, sent: seq<nat>)
    requires TableOk(t, sent) && AllDistinct(ids) && (status == Delivered || status == Failed)
    requires forall k :: 0 <= k < |ids| ==> IsSending(t.rows, ids[k]) && ids[k] in sent
    ensures ResultsOk(t, ids, sent, UpdateLoop(t, ids, status, f).table)
    decreases |ids|
  {
    if |ids| == 0 {
      assert Moves(t.rows, t.rows) && Moves(t.disk, t.disk);
    } else {
      ResultKeeps(t, ids[0], status, f, sent);
      assert ids == [ids[0]] + ids[1..];
      if !Raises(f) {
        var t' := Write(t, SetStatus(t.rows, ids[0], status), f);
        forall k | 0 <= k < |ids[1..]| ensures IsSending(t'.rows, ids[1..][k]) && ids[1..][k] in sent {
          assert ids[1..][k] == ids[k + 1] && IsSending(t.rows, ids[k + 1]) && ids[0] != ids[k + 1];
        }
        ResultsKeep(t', ids[1..], status, Later(f), sent);
        var end := UpdateLoop(t', ids[1..], status, Later(f)).table;
        MovesOn(t.disk, t'.disk, end.disk);
        MovesOn(t.rows, t'.rows, end.rows);
      }
    }
  }

  // ---------------------------------------------------------------- the invariant

  predicate Sends(tasks: map<nat, InFlight>, task: nat, id: nat) {
    task in tasks && id in IdsOf(tasks[task])
  }

  /** Rows in flight were handed over and are sending, and no row is in two sends. */
  ghost predicate TasksOk(rows: seq<Row>, tasks: map<nat, InFlight>, sent: seq<nat>) {
    && (forall t, id :: Sends(tasks, t, id) ==> IsSending(rows, id) && id in sent)
    && (forall t, u, id :: Sends(tasks, t, id) && Sends(tasks, u, id) ==> t == u)
    && (forall t :: t in tasks ==> SendOk(tasks[t]))
  }

  /** A batch carries exactly the rows it locked. */
  ghost predicate SendOk(f: InFlight) {
    AllDistinct(IdsOf(f)) && (f.Batch? ==> f.ids == Ids(f.items))
  }

  ghost predicate RunsUpTo(rows: seq<Row>, run: nat) {
    forall i :: 0 <= i < |rows| ==> rows[i].run <= run
  }

  function LostCriticals(p: Past): set<nat> { p.raisedPops + p.raisedInserts }

  function LostWarnings(p: Past): set<nat> { p.dropped + p.raisedInserts }

  ghost predicate WarningsOk(rows: seq<Row>, run: nat, ids: seq<nat>, lost: set<nat>) {
    Holds(rows, run, Warning, ids, lost) && AllPending(rows, ids)
  }

  ghost predicate Inv(s: State) {
    && TableOk(s.table, s.past.sent) && RunsUpTo(s.table.rows, s.mem.run)
    && TasksOk(s.table.rows, s.mem.tasks, s.past.sent)
    && Holds(s.table.rows, s.mem.run, Critical, s.mem.critQ, LostCriticals(s.past))
    && WarningsOk(s.table.rows, s.mem.run, Ids(s.mem.buffer), LostWarnings(s.past))
  }

  /** What a step may do: keep the invariant, and move statuses forward: on disk always, and as the
      process sees them as long as it lives. */
  ghost predicate Safe(s: State, s': State) {
    && Inv(s') && Moves(s.table.disk, s'.table.disk)
    && (s'.mem.run == s.mem.run ==> Moves(s.table.rows, s'.table.rows))
    && s.past.sent <= s'.past.sent
  }

  lemma RunsStay(rows: seq<Row>, rows': seq<Row>, run: nat)
    requires RunsUpTo(rows, run) && Moves(rows, rows') && |rows'| == |rows|
    ensures RunsUpTo(rows', run)
  {
    forall i | 0 <= i < |rows'| ensures rows'[i].run <= run { assert Reaches(rows[i], rows'[i]); }
  }

  lemma LocksKeepTasks(rows: seq<Row>, rows': seq<Row>, tasks: map<nat, InFlight>, sent: seq<nat>, severity: Severity)
    requires TasksOk(rows, tasks, sent) && LocksOnly(rows, rows', severity)
    ensures TasksOk(rows', tasks, sent)
  {
    forall t, id: nat | Sends(tasks, t, id) ensures IsSending(rows', id) && id in sent {
      assert IsSending(rows, id) && LockedOrSame(rows[id], rows'[id], severity);
    }
  }

  lemma CriticalLocksKeepWarnings(rows: seq<Row>, rows': seq<Row>, run: nat, ids: seq<nat>, lost: set<nat>)
    requires WarningsOk(rows, run, ids, lost) && LocksOnly(rows, rows', Critical)
    ensures WarningsOk(rows', run, ids, lost)
  {
    LocksMove(rows, rows', Critical);
    MovingKeepsHolds(rows, rows', run, Warning, ids, lost);
    forall k | 0 <= k < |ids| ensures IsPending(rows', ids[k]) {
      assert IsPending(rows, ids[k]) && IsHeld(rows, run, Warning, ids[k]);
      assert LockedOrSame(rows[ids[k]], rows'[ids[k]], Critical);
    }
  }

  // ---------------------------------------------------------------- handing over

  lemma HandedKeepsTasks(rows: seq<Row>, tasks: map<nat, InFlight>, sent: seq<nat>, task: nat, f: InFlight)
    requires TasksOk(rows, tasks, sent) && task !in tasks && SendOk(f)
    requires forall k :: 0 <= k < |IdsOf(f)| ==> IsSending(rows, IdsOf(f)[k]) && IdsOf(f)[k] !in sent
    ensures TasksOk(rows, tasks[task := f], sent + IdsOf(f))
  {
    var tasks' := tasks[task := f];
    forall t, id: nat | Sends(tasks', t, id)
      ensures IsSending(rows, id) && id in sent + IdsOf(f) && (t == task <==> id !in sent)
    {
      if t == task {
        var k :| 0 <= k < |IdsOf(f)| && IdsOf(f)[k] == id;
      } else {
        assert Sends(tasks, t, id);
      }
    }
    forall t, u, id | Sends(tasks', t, id) && Sends(tasks', u, id) ensures t == u {
      if t != task { assert Sends(tasks, t, id) && Sends(tasks, u, id); }
    }
  }

  lemma HandedKeeps(s: State, task: nat, f: InFlight)
    requires Inv(s) && task !in s.mem.tasks && SendOk(f)
    requires forall k :: 0 <= k < |IdsOf(f)| ==> IsSending(s.table.rows, IdsOf(f)[k]) && IdsOf(f)[k] !in s.past.sent
    requires forall k :: 0 <= k < |IdsOf(f)| ==> IsGone(s.table.disk, IdsOf(f)[k])
    ensures Inv(Handed(s, task, f))
  {
    HandingKeeps(s.table, s.past.sent, IdsOf(f));
    HandedKeepsTasks(s.table.rows, s.mem.tasks, s.past.sent, task, f);
  }

  // ---------------------------------------------------------------- the steps

  lemma IdsSplit(items: seq<Item>, n: nat)
    requires n <= |items|
    ensures Ids(items) == Ids(items[..n]) + Ids(items[n..])
  {
  }

  lemma LockedKeeps(c: Config, s: State, now: int, f: Fault)
    requires Inv(s)
    ensures Safe(s, Locked(c, s, now, f))
    ensures var items := s.mem.buffer[..BatchLength(c, s.mem)];
            LocksOk(s.table, Ids(items), Ids(s.mem.buffer[|items|..]), s.past.sent, s.mem.run, LostWarnings(s.past),
                    LockBatch(c, s, f))
  {
    var n := BatchLength(c, s.mem);
    var ids, more := Ids(s.mem.buffer[..n]), Ids(s.mem.buffer[n..]);
    IdsSplit(s.mem.buffer, n);
    LocksKeep(s.table, ids, more, f, s.past.sent, s.mem.run, LostWarnings(s.past));
    var end, rows := LockLoop(s.table, ids, f), s.table.rows;
    LocksMove(rows, end.table.rows, Warning);
    LocksKeepTasks(rows, end.table.rows, s.mem.tasks, s.past.sent, Warning);
    MovingKeepsHolds(rows, end.table.rows, s.mem.run, Critical, s.mem.critQ, LostCriticals(s.past));
    RunsStay(rows, end.table.rows, s.mem.run);
    assert LostWarnings(s.past) + Elems(end.left) == LostWarnings(Locked(c, s, now, f).past);
  }

  lemma FlushKeeps(c: Config, s: State, task: nat, now: int, f: Fault)
    requires Inv(s) && task !in s.mem.tasks
    ensures Safe(s, Flush(c, s, task, now, f))
  {
    LockedKeeps(c, s, now, f);
    var items, end := s.mem.buffer[..BatchLength(c, s.mem)], LockBatch(c, s, f);
    if |end.left| == 0 && |end.locked| > 0 {
      assert Ids(items) == end.locked;
      forall k | 0 <= k < |items| ensures WasTaken(s.table.rows, Locked(c, s, now, f).table, items[k].id) {
        assert WasTaken(s.table.rows, end.table, Ids(items)[k]);
      }
      BatchIsHanded(s, Locked(c, s, now, f), task, items);
    }
  }

  lemma BatchIsHanded(s: State, s1: State, task: nat, items: seq<Item>)
    requires Inv(s) && Safe(s, s1) && s1.past.sent == s.past.sent && task !in s1.mem.tasks
    requires items <= s.mem.buffer && forall k :: 0 <= k < |items| ==> WasTaken(s.table.rows, s1.table, items[k].id)
    ensures Safe(s, Handed(s1, task, Batch(Ids(items), items)))
  {
    var ids := Ids(items);
    assert items == s.mem.buffer[..|items|];
    BatchIsDistinct(s, |items|);
    forall k | 0 <= k < |ids|
      ensures IsSending(s1.table.rows, ids[k]) && ids[k] !in s.past.sent && IsGone(s1.table.disk, ids[k])
    {
      assert WasTaken(s.table.rows, s1.table, items[k].id);
      PendingIsUnsent(s.table, s.past.sent, ids[k]);
    }
    HandedKeeps(s1, task, Batch(ids, items));
  }

  lemma BatchIsDistinct(s: State, n: nat)
    requires Inv(s) && n <= |s.mem.buffer|
    ensures AllDistinct(Ids(s.mem.buffer[..n]))
  {
    var all, ids := Ids(s.mem.buffer), Ids(s.mem.buffer[..n]);
    forall j, k | 0 <= j < k < |ids| ensures ids[j] != ids[k] {
      assert all[j] == ids[j] && all[k] == ids[k];
    }
  }

  lemma PoppedKeeps(s: State, f: Fault)
    requires Inv(s)
    ensures Safe(s, Popped(s, f))
    ensures PopOk(s.table, s.mem.critQ, s.past.sent, s.mem.run, LostCriticals(s.past), PopLoop(s.table, s.mem.critQ, f))
  {
    PopKeeps(s.table, s.mem.critQ, f, s.past.sent, s.mem.run, LostCriticals(s.past));
    var end, rows := PopLoop(s.table, s.mem.critQ, f), s.table.rows;
    LocksMove(rows, end.table.rows, Critical);
    LocksKeepTasks(rows, end.table.rows, s.mem.tasks, s.past.sent, Critical);
    CriticalLocksKeepWarnings(rows, end.table.rows, s.mem.run, Ids(s.mem.buffer), LostWarnings(s.past));
    RunsStay(rows, end.table.rows, s.mem.run);
    assert LostCriticals(s.past) + OneOf(end.raised) == LostCriticals(Popped(s, f).past);
  }

  lemma TakenIsHanded(s: State, s1: State, task: nat, id: nat, goesOn: bool)
    requires Inv(s) && Safe(s, s1) && WasTaken(s.table.rows, s1.table, id)
    requires task !in s1.mem.tasks && s1.past.sent == s.past.sent
    ensures Safe(s, Handed(s1, task, Single(id, goesOn)))
  {
    PendingIsUnsent(s.table, s.past.sent, id);
    HandedKeeps(s1, task, Single(id, goesOn));
  }

  lemma SafeOn(s: State, s1: State, s2: State)
    requires Safe(s, s1) && Safe(s1, s2) && s1.mem.run == s.mem.run
    ensures Safe(s, s2)
  {
    MovesOn(s.table.disk, s1.table.disk, s2.table.disk);
    if s2.mem.run == s.mem.run { MovesOn(s.table.rows, s1.table.rows, s2.table.rows); }
  }

  lemma DrainClosedKeeps(c: Config, s: State, task: nat, now: int, f: Fault)
    requires Inv(s) && task !in s.mem.tasks
    ensures Safe(s, DrainClosed(c, s, task, now, f))
  {
    PoppedKeeps(s, f);
    var end, s1 := PopLoop(s.table, s.mem.critQ, f), Popped(s, f);
    if end.raised.None? && end.found.Some? {
      TakenIsHanded(s, s1, task, end.found.value, true);
    } else if end.raised.None? && Ready(c, s1.mem, now) {
      FlushKeeps(c, s1, task, now, end.f);
      SafeOn(s, s1, Flush(c, s1, task, now, end.f));
    }
  }

  lemma {:induction false} OldestIsOldest(rows: seq<Row>, n: nat)
    requires n <= |rows|
    ensures var hit := OldestCritical(rows, n);
            && (hit.Some? ==> rows[hit.value].status == Pending && rows[hit.value].severity == Critical)
            && forall i :: 0 <= i < n && rows[i].status == Pending && rows[i].severity == Critical ==>
                 hit.Some? && rows[hit.value].ts <= rows[i].ts
  {
    if n > 0 {
      OldestIsOldest(rows, n - 1);
    }
  }

  lemma ProbedKeeps(s: State, id: nat, f: Fault)
    requires Inv(s) && IsPending(s.table.rows, id) && s.table.rows[id].severity == Critical
    ensures Safe(s, Probed(s, id, f)) && (!Raises(f) ==> WasTaken(s.table.rows, Probed(s, id, f).table, id))
  {
    LockKeeps(s.table, id, f, s.past.sent, Critical);
    var rows, rows' := s.table.rows, Probed(s, id, f).table.rows;
    LocksMove(rows, rows', Critical);
    LocksKeepTasks(rows, rows', s.mem.tasks, s.past.sent, Critical);
    CriticalLocksKeepWarnings(rows, rows', s.mem.run, Ids(s.mem.buffer), LostWarnings(s.past));
    MovingKeepsHolds(rows, rows', s.mem.run, Critical, s.mem.critQ, LostCriticals(s.past));
    RunsStay(rows, rows', s.mem.run);
  }

  lemma ProbeKeeps(s: State, task: nat, f: Fault)
    requires Inv(s) && task !in s.mem.tasks
    ensures Safe(s, HalfOpenTest(s, task, f))
  {
    OldestIsOldest(s.table.rows, |s.table.rows|);
    var hit := OldestCritical(s.table.rows, |s.table.rows|);
    if hit.Some? {
      ProbedKeeps(s, hit.value, f);
      if !Raises(f) { TakenIsHanded(s, Probed(s, hit.value, f), task, hit.value, false); }
    } else {
      StayingIsSafe(s);
    }
  }

  lemma StayingIsSafe(s: State)
    requires Inv(s)
    ensures Safe(s, s)
  {
  }

  lemma DrainKeeps(c: Config, s: State, task: nat, now: int, f: Fault)
    requires Inv(s)
    ensures Safe(s, DrainOnce(c, s, task, now, f))
  {
    StayingIsSafe(s);
    if task !in s.mem.tasks && !(s.mem.breaker.Open? && now < s.mem.breaker.until) {
      if s.mem.breaker.Closed? {
        DrainClosedKeeps(c, s, task, now, f);
      } else {
        ProbeKeeps(s.(mem := s.mem.(breaker := HalfOpen)), task, f);
      }
    }
  }

  /** Other sends lose no row when one ends. */
  lemma OtherTasksStay(rows: seq<Row>, tasks: map<nat, InFlight>, task: nat, rows': seq<Row>, sent: seq<nat>)
    requires TasksOk(rows, tasks, sent) && |rows'| == |rows|
    requires forall i: nat :: i < |rows| ==> rows'[i] == rows[i] || Sends(tasks, task, i)
    ensures TasksOk(rows', tasks - {task}, sent)
  {
    forall t, id: nat | Sends(tasks - {task}, t, id)
      ensures Sends(tasks, t, id) && t != task && IsSending(rows', id) && id in sent
    {
      assert Sends(tasks, t, id) && IsSending(rows, id);
      assert !Sends(tasks, task, id);
      assert rows'[id] == rows[id];
    }
  }

  lemma ResultedKeeps(s: State, task: nat, ok: bool, f: Fault)
    requires Inv(s) && task in s.mem.tasks
    ensures Safe(s, Resulted(s, task, ok, f))
  {
    var ids, rows := IdsOf(s.mem.tasks[task]), s.table.rows;
    forall k | 0 <= k < |ids| ensures IsSending(rows, ids[k]) && ids[k] in s.past.sent {
      assert Sends(s.mem.tasks, task, ids[k]);
    }
    assert SendOk(s.mem.tasks[task]);
    ResultsKeep(s.table, ids, if ok then Delivered else Failed, f, s.past.sent);
    var rows' := Resulted(s, task, ok, f).table.rows;
    forall i: nat | i < |rows| ensures rows'[i] == rows[i] || Sends(s.mem.tasks, task, i) { }
    OtherTasksStay(rows, s.mem.tasks, task, rows', s.past.sent);
    MovingKeepsHolds(rows, rows', s.mem.run, Critical, s.mem.critQ, LostCriticals(s.past));
    ResultsKeepWarnings(rows, rows', s.mem.run, Ids(s.mem.buffer), LostWarnings(s.past), ids);
    RunsStay(rows, rows', s.mem.run);
  }

  lemma ResultsKeepWarnings(
    rows: seq<Row>, rows': seq<Row>, run: nat, held: seq<nat>, lost: set<nat>, ids: seq<nat>)
    requires WarningsOk(rows, run, held, lost) && Moves(rows, rows') && |rows'| == |rows|
    requires forall k :: 0 <= k < |ids| ==> IsSending(rows, ids[k])
    requires forall i: nat :: i < |rows| && i !in ids ==> rows'[i] == rows[i]
    ensures WarningsOk(rows', run, held, lost)
  {
    MovingKeepsHolds(rows, rows', run, Warning, held, lost);
    forall k | 0 <= k < |held| ensures IsPending(rows', held[k]) {
      assert IsPending(rows, held[k]);
    }
  }

  lemma SendKeeps(c: Config, s: State, task: nat, ok: bool, now: int, f: Fault)
    requires Inv(s) && task in s.mem.tasks
    ensures Safe(s, SendEnds(c, s, task, ok, now, f))
  {
    ResultedKeeps(s, task, ok, f);
    var s1 := Resulted(s, task, ok, f);
    var end, s2 := Results(s, task, ok, f), Judged(c, s1, ok, now);
    assert Safe(s, s2);
    if !end.raised && s.mem.tasks[task].Single? && s.mem.tasks[task].goesOn {
      DrainClosedKeeps(c, s2, task, now, end.f);
      SafeOn(s, s2, DrainClosed(c, s2, task, now, end.f));
    }
  }

  // ---------------------------------------------------------------- emits and restarts

  lemma NewRowKeepsTasks(rows: seq<Row>, row: Row, tasks: map<nat, InFlight>, sent: seq<nat>)
    requires TasksOk(rows, tasks, sent)
    ensures TasksOk(rows + [row], tasks, sent)
  {
    forall t, id: nat | Sends(tasks, t, id) ensures IsSending(rows + [row], id) && id in sent {
      assert IsSending(rows, id);
    }
  }

  lemma NewRowKeepsPending(rows: seq<Row>, row: Row, ids: seq<nat>)
    requires AllPending(rows, ids)
    ensures AllPending(rows + [row], ids)
  {
    forall k | 0 <= k < |ids| ensures IsPending(rows + [row], ids[k]) { assert IsPending(rows, ids[k]); }
  }

  /** A row is inserted; it goes to the queue or the buffer of its severity if the insert passes. */
  function Inserted(s: State, severity: Severity, ts: int, f: Fault): State {
    var s1, n := Insert(s, severity, ts, f), |s.table.rows|;
    if Raises(f) then s1
    else if severity == Critical then s1.(mem := s1.mem.(critQ := s1.mem.critQ + [n]))
    else if severity == Warning then s1.(mem := s1.mem.(buffer := s1.mem.buffer + [Item(n, 1)]))
    else s1
  }

  lemma InsertedKeepsCriticals(s: State, severity: Severity, ts: int, f: Fault)
    requires Inv(s)
    ensures var s' := Inserted(s, severity, ts, f);
            Holds(s'.table.rows, s'.mem.run, Critical, s'.mem.critQ, LostCriticals(s'.past))
  {
    var s', row := Inserted(s, severity, ts, f), Row(severity, ts, Pending, s.mem.run);
    if s'.table.rows != s.table.rows {
      assert s'.table.rows == s.table.rows + [row];
      assert LostCriticals(s'.past) == LostCriticals(s.past) + if Raises(f) then {|s.table.rows|} else {};
      if Raises(f) || severity == Critical {
        NewRowKeepsHolds(s.table.rows, s.mem.run, Critical, s.mem.critQ, LostCriticals(s.past), row,
                         s'.mem.critQ, LostCriticals(s'.past));
      } else {
        NewRowKeepsHolds(s.table.rows, s.mem.run, Critical, s.mem.critQ, LostCriticals(s.past), row,
                         s.mem.critQ, LostCriticals(s.past));
      }
    }
  }

  lemma InsertedKeepsWarnings(s: State, severity: Severity, ts: int, f: Fault)
    requires Inv(s)
    ensures var s' := Inserted(s, severity, ts, f);
            WarningsOk(s'.table.rows, s'.mem.run, Ids(s'.mem.buffer), LostWarnings(s'.past))
  {
    var s', row := Inserted(s, severity, ts, f), Row(severity, ts, Pending, s.mem.run);
    var rows, ids, lost := s.table.rows, Ids(s.mem.buffer), LostWarnings(s.past);
    if s'.table.rows != rows {
      assert s'.table.rows == rows + [row];
      var ids', lost' := Ids(s'.mem.buffer), LostWarnings(s'.past);
      assert lost' == lost + if Raises(f) then {|rows|} else {};
      assert !Raises(f) && severity == Warning ==> ids' == ids + [|rows|];
      NewRowKeepsHolds(rows, s.mem.run, Warning, ids, lost, row, ids', lost');
      NewRowKeepsPending(rows, row, ids);
    }
  }

  lemma InsertedKeeps(s: State, severity: Severity, ts: int, f: Fault)
    requires Inv(s)
    ensures Safe(s, Inserted(s, severity, ts, f))
  {
    var row := Row(severity, ts, Pending, s.mem.run);
    InsertKeeps(s.table, row, f, s.past.sent);
    NewRowKeepsTasks(s.table.rows, row, s.mem.tasks, s.past.sent);
    InsertedKeepsCriticals(s, severity, ts, f);
    InsertedKeepsWarnings(s, severity, ts, f);
  }

  lemma EmitInfoKeeps(s: State, ts: int, f: Fault)
    requires Inv(s)
    ensures Safe(s, EmitInfo(s, ts, f))
  {
    InsertedKeeps(s, Info, ts, f);
    if !Raises(f) {
      var s1, n := Inserted(s, Info, ts, f), |s.table.rows|;
      InfoKeeps(s1.table, n, Later(f), s.past.sent);
      var t' := EmitInfo(s, ts, f).table;
      MovesOn(s.table.disk, s1.table.disk, t'.disk);
      MovesOn(s.table.rows, s1.table.rows, t'.rows);
      MovingKeepsHolds(s1.table.rows, t'.rows, s.mem.run, Critical, s.mem.critQ, LostCriticals(s.past));
      MovingKeepsHolds(s1.table.rows, t'.rows, s.mem.run, Warning, Ids(s.mem.buffer), LostWarnings(s.past));
      InfoKeepsOthers(s1, t'.rows, n);
      RunsStay(s1.table.rows, t'.rows, s.mem.run);
    }
  }

  lemma InfoKeepsOthers(s: State, rows': seq<Row>, n: nat)
    requires Inv(s) && n < |s.table.rows| == |rows'| && s.table.rows[n].severity == Info
    requires forall i: nat :: i < |rows'| && i != n ==> rows'[i] == s.table.rows[i]
    ensures TasksOk(rows', s.mem.tasks, s.past.sent) && AllPending(rows', Ids(s.mem.buffer))
  {
    var ids := Ids(s.mem.buffer);
    forall t, id: nat | Sends(s.mem.tasks, t, id) ensures IsSending(rows', id) && id in s.past.sent {
      assert IsSending(s.table.rows, id);
    }
    forall k | 0 <= k < |ids| ensures IsPending(rows', ids[k]) {
      assert IsPending(s.table.rows, ids[k]) && IsHeld(s.table.rows, s.mem.run, Warning, ids[k]);
    }
  }

  lemma EmitWarningKeeps(c: Config, s: State, ts: int, key: Key, now: int, f: Fault)
    requires Inv(s)
    ensures Safe(s, EmitWarning(c, s, ts, key, now, f))
  {
    if Merges(c, s.mem, key, now) {
      assert Ids(EmitWarning(c, s, ts, key, now, f).mem.buffer) == Ids(s.mem.buffer);
      StayingIsSafe(s);
    } else {
      InsertedKeeps(s, Warning, ts, f);
    }
  }

  lemma RestartIsSafe(s: State, cutoff: int, f: Fault)
    requires Inv(s)
    ensures Safe(s, Restart(s, cutoff, f))
  {
    RestartKeeps(s.table, cutoff, f, s.past.sent);
    var s' := Restart(s, cutoff, f);
    forall i | 0 <= i < |s'.table.rows| ensures s'.table.rows[i].run < s'.mem.run {
      assert Reaches(s.table.disk[i], s.table.rows[i]);
    }
    assert Ids(s'.mem.buffer) == [];
  }

  lemma CommitIsSafe(s: State)
    requires Inv(s)
    ensures Safe(s, s.(table := Table(s.table.rows, s.table.rows)))
  {
    GoneMoves(s.table.disk, s.table.rows, s.past.sent);
    assert Moves(s.table.rows, s.table.rows);
  }

  lemma CancelIsSafe(s: State, task: nat)
    requires Inv(s)
    ensures Safe(s, s.(mem := s.mem.(tasks := s.mem.tasks - {task})))
  {
    OtherTasksStay(s.table.rows, s.mem.tasks, task, s.table.rows, s.past.sent);
    StayingIsSafe(s);
  }

  lemma StepIsSafe(c: Config, s: State, e: Event)
    requires Inv(s)
    ensures Safe(s, Step(c, s, e))
  {
    match e
    case InfoEmitted(ts, f) => EmitInfoKeeps(s, ts, f);
    case CriticalEmitted(ts, f) => InsertedKeeps(s, Critical, ts, f);
    case WarningEmitted(ts, key, now, f) => EmitWarningKeeps(c, s, ts, key, now, f);
    case DrainCalled(task, now, f) => DrainKeeps(c, s, task, now, f);
    case SendEnded(task, ok, now, f) =>
      if task in s.mem.tasks { SendKeeps(c, s, task, ok, now, f); } else { StayingIsSafe(s); }
    case Cancelled(task) => CancelIsSafe(s, task);
    case Restarted(cutoff, f) => RestartIsSafe(s, cutoff, f);
    case Committed => CommitIsSafe(s);
  }

  lemma {:induction false} RunKeepsInv(c: Config, es: seq<Event>)
    ensures Inv(Run(c, es))
  {
    if |es| == 0 {
      assert Ids(START.mem.buffer) == [];
    } else {
      RunKeepsInv(c, es[..|es| - 1]);
      StepIsSafe(c, Run(c, es[..|es| - 1]), es[|es| - 1]);
    }
  }
}
