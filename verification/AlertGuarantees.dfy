/** What alert delivery guarantees over every run, and exactly when it does not. */
module AlertGuarantees {
  import opened Basics
  import opened AlertSpec
  import opened AlertTable
  import opened AlertRuns

  // ---------------------------------------------------------------- the guarantees

  /** Over every run no row is handed to a sender twice, restarts and raising writes included; a row
      handed over is locked on disk for good, and a send in flight holds only rows handed to it. */
  lemma HandedAtMostOnce(c: Config, es: seq<Event>)
    ensures var s := Run(c, es);
            && (forall j, k :: 0 <= j < k < |s.past.sent| ==> s.past.sent[j] != s.past.sent[k])
            && (forall k :: 0 <= k < |s.past.sent| ==> IsGone(s.table.disk, s.past.sent[k]))
            && (forall i: nat :: i < |s.table.rows| && Finished(s.table.rows[i]) ==> i in s.past.sent)
  {
    RunKeepsInv(c, es);
  }

  /** A pending critical row of this process is missing from the queue exactly when a lock raised on it
      after its pop, or its insert raised at its commit. */
  lemma MissingExactlyIfRaised(c: Config, es: seq<Event>, i: nat)
    requires i < |Run(c, es).table.rows| && Awaits(Run(c, es).table.rows[i], Run(c, es).mem.run, Critical)
    ensures var s := Run(c, es);
            i !in s.mem.critQ <==> i in s.past.raisedPops || i in s.past.raisedInserts
  {
    RunKeepsInv(c, es);
    var past := Run(c, es).past;
    assert i in LostCriticals(past) <==> i in past.raisedPops || i in past.raisedInserts;
  }

  /** A pending warning of this process is missing from the buffer exactly when it was in a batch whose
      lock raised on it or before it, or its insert raised at its commit. */
  lemma WarningMissingExactlyIfRaised(c: Config, es: seq<Event>, i: nat)
    requires i < |Run(c, es).table.rows| && Awaits(Run(c, es).table.rows[i], Run(c, es).mem.run, Warning)
    ensures var s := Run(c, es);
            i !in Ids(s.mem.buffer) <==> i in s.past.dropped || i in s.past.raisedInserts
  {
    RunKeepsInv(c, es);
    var past := Run(c, es).past;
    assert i in LostWarnings(past) <==> i in past.dropped || i in past.raisedInserts;
  }

  function FaultOf(e: Event): Fault {
    if e.Cancelled? || e.Committed? then NoFault else e.f
  }

  /** Without a raise nothing is ever missing: every pending critical row of this process is queued and
      every pending warning buffered, even when the half-open probe takes rows straight from the
      table. */
  lemma {:induction false} NoRaiseNoLoss(c: Config, es: seq<Event>)
    requires forall k :: 0 <= k < |es| ==> FaultOf(es[k]) == NoFault
    ensures var s := Run(c, es); s.past.raisedPops == s.past.dropped == s.past.raisedInserts == {}
  {
    if |es| > 0 {
      NoRaiseNoLoss(c, es[..|es| - 1]);
      QuietStep(c, Run(c, es[..|es| - 1]), es[|es| - 1]);
    }
  }

  lemma {:induction false} QuietPop(t: Table, queue: seq<nat>)
    ensures PopLoop(t, queue, NoFault).raised.None? && PopLoop(t, queue, NoFault).f == NoFault
    decreases |queue|
  {
    if |queue| > 0 { QuietPop(Write(t, Lock(t.rows, queue[0]), NoFault), queue[1..]); }
  }

  lemma {:induction false} QuietLocks(t: Table, ids: seq<nat>)
    ensures LockLoop(t, ids, NoFault).left == []
    decreases |ids|
  {
    if |ids| > 0 { QuietLocks(Write(t, Lock(t.rows, ids[0]), NoFault), ids[1..]); }
  }

  lemma {:induction false} QuietResults(t: Table, ids: seq<nat>, status: Status)
    ensures UpdateLoop(t, ids, status, NoFault).f == NoFault && !UpdateLoop(t, ids, status, NoFault).raised
    decreases |ids|
  {
    if |ids| > 0 { QuietResults(Write(t, SetStatus(t.rows, ids[0], status), NoFault), ids[1..], status); }
  }

  function Losses(p: Past): (set<nat>, set<nat>, set<nat>) { (p.raisedPops, p.dropped, p.raisedInserts) }

  lemma QuietDrain(c: Config, s: State, task: nat, now: int)
    ensures Losses(DrainClosed(c, s, task, now, NoFault).past) == Losses(s.past)
  {
    QuietPop(s.table, s.mem.critQ);
    var s1 := Popped(s, NoFault);
    QuietLocks(s1.table, Ids(s1.mem.buffer[..BatchLength(c, s1.mem)]));
    assert s.past.raisedPops + {} == s.past.raisedPops && s.past.dropped + Elems([]) == s.past.dropped;
  }

  lemma QuietStep(c: Config, s: State, e: Event)
    requires FaultOf(e) == NoFault
    ensures e.Restarted? || Losses(Step(c, s, e).past) == Losses(s.past)
  {
    match e
    case DrainCalled(task, now, f) =>
      if s.mem.breaker.Closed? { QuietDrain(c, s, task, now); }
    case SendEnded(task, ok, now, f) =>
      if task in s.mem.tasks {
        var status := if ok then Delivered else Failed;
        QuietResults(s.table, IdsOf(s.mem.tasks[task]), status);
        var s1 := Resulted(s, task, ok, NoFault);
        QuietDrain(c, Judged(c, s1, ok, now), task, now);
      }
    case _ =>
  }

  // ---------------------------------------------------------------- statuses

  function Continue(c: Config, s: State, es: seq<Event>): State
    decreases |es|
  {
    if |es| == 0 then s else Continue(c, Step(c, s, es[0]), es[1..])
  }

  lemma {:induction false} DiskMovesFrom(c: Config, s: State, es: seq<Event>)
    requires Inv(s)
    ensures Moves(s.table.disk, Continue(c, s, es).table.disk) && Inv(Continue(c, s, es))
    decreases |es|
  {
    if |es| == 0 {
      assert Moves(s.table.disk, s.table.disk);
    } else {
      var next := Step(c, s, es[0]);
      StepIsSafe(c, s, es[0]);
      DiskMovesFrom(c, next, es[1..]);
      MovesOn(s.table.disk, next.table.disk, Continue(c, next, es[1..]).table.disk);
    }
  }

  /** From any reachable state on, a row on disk keeps its place and its status only moves forward:
      pending to anything, sending to delivered or failed, while delivered, failed and expired stay. */
  lemma StatusesOnlyMoveForward(c: Config, es: seq<Event>, more: seq<Event>, i: nat)
    requires i < |Run(c, es).table.disk|
    ensures var disk, disk' := Run(c, es).table.disk, Continue(c, Run(c, es), more).table.disk;
            i < |disk'| && Reaches(disk[i], disk'[i])
  {
    RunKeepsInv(c, es);
    DiskMovesFrom(c, Run(c, es), more);
  }

  /** A send result only ever lands on rows in status sending that this send alone was handed, although
      the update that writes it does not look. */
  lemma ResultsLandOnSendingRows(c: Config, es: seq<Event>, task: nat, id: nat)
    requires Sends(Run(c, es).mem.tasks, task, id)
    ensures var s := Run(c, es);
            && IsSending(s.table.rows, id) && id in s.past.sent
            && forall other :: other != task ==> !Sends(s.mem.tasks, other, id)
  {
    RunKeepsInv(c, es);
  }

  // ---------------------------------------------------------------- drains

  /** A drain under a closed breaker in which no write raises starts a send, or leaves no critical row
      of this process pending but those lost to earlier raises. */
  lemma ClosedDrainSendsOrClears(c: Config, es: seq<Event>, task: nat, now: int)
    requires Run(c, es).mem.breaker.Closed? && task !in Run(c, es).mem.tasks
    ensures var s' := Step(c, Run(c, es), DrainCalled(task, now, NoFault));
            || task in s'.mem.tasks
            || forall i: nat :: i < |s'.table.rows| && Awaits(s'.table.rows[i], s'.mem.run, Critical) ==>
                 i in LostCriticals(s'.past)
  {
    var s := Run(c, es);
    RunKeepsInv(c, es);
    StepIsSafe(c, s, DrainCalled(task, now, NoFault));
    EmptyQueue(c, s, task, now);
  }

  lemma EmptyQueue(c: Config, s: State, task: nat, now: int)
    requires Inv(s)
    ensures var s' := DrainClosed(c, s, task, now, NoFault); task in s'.mem.tasks || s'.mem.critQ == []
  {
    PoppedKeeps(s, NoFault);
    QuietPop(s.table, s.mem.critQ);
  }

  /** The half-open probe takes the oldest pending critical row of the table, whichever process wrote it
      and whether or not the queue still has it, if there is one and its lock does not raise. */
  lemma ProbeTakesTheOldest(c: Config, es: seq<Event>, task: nat, now: int, f: Fault)
    requires var m := Run(c, es).mem;
             task !in m.tasks && !m.breaker.Closed? && (m.breaker.Open? ==> now >= m.breaker.until)
    ensures var s, s' := Run(c, es), Step(c, Run(c, es), DrainCalled(task, now, f));
            var rows := s.table.rows;
            && (task in s'.mem.tasks <==> !Raises(f) && exists i: nat :: i < |rows| && IsPendingCritical(rows[i]))
            && (task in s'.mem.tasks ==>
                  && s'.mem.tasks[task].Single? && !s'.mem.tasks[task].goesOn
                  && IsOldest(rows, s'.mem.tasks[task].id))
  {
    OldestIsOldest(Run(c, es).table.rows, |Run(c, es).table.rows|);
  }

  predicate IsPendingCritical(row: Row) { row.status == Pending && row.severity == Critical }

  ghost predicate IsOldest(rows: seq<Row>, id: nat) {
    && id < |rows| && IsPendingCritical(rows[id])
    && forall i: nat :: i < |rows| && IsPendingCritical(rows[i]) ==> rows[id].ts <= rows[i].ts
  }

  // ---------------------------------------------------------------- what a raise costs

  /** A critical alert whose lock raises is lost to its process: the row is pending, and the queue no
      longer has it. */
  lemma LockRaiseLosesTheAlert(c: Config)
    ensures var s := Run(c, [CriticalEmitted(1, NoFault), DrainCalled(0, 0, At(0, false))]);
            && s.table.rows == s.table.disk == [Row(Critical, 1, Pending, 0)]
            && s.mem.critQ == [] && s.mem.tasks == map[] && s.past.raisedPops == {0}
  {
    var e1, e2 := CriticalEmitted(1, NoFault), DrainCalled(0, 0, At(0, false));
    assert [e1][..0] == [] && [e1, e2][..1] == [e1];
    OneAlertQueued(c);
    assert Run(c, [e1, e2]) == Step(c, QUEUED, e2);
    OneAlertRaises(c);
  }

  lemma OneAlertRaises(c: Config)
    ensures Step(c, QUEUED, DrainCalled(0, 0, At(0, false))) ==
            State(OneRow(Pending), FreshMemory(0), Past([], {0}, {}, {}))
  {
    assert PopLoop(QUEUED.table, [0], At(0, false)) == PopEnd(OneRow(Pending), [], None, Some(0), At(0, false));
    assert {} + {0} == {0};
  }

  /** Only a half-open probe, or the sweep of a restart, ever touches a lost alert again. */
  lemma LostAlertWaits(c: Config, es: seq<Event>, e: Event, i: nat)
    requires i < |Run(c, es).table.rows| && Awaits(Run(c, es).table.rows[i], Run(c, es).mem.run, Critical)
    requires i !in Run(c, es).mem.critQ
    requires !e.Restarted? && !(e.DrainCalled? && !Run(c, es).mem.breaker.Closed?)
    ensures var s, s' := Run(c, es), Step(c, Run(c, es), e);
            i < |s'.table.rows| && s'.table.rows[i] == s.table.rows[i] && i !in s'.mem.critQ
  {
    RunKeepsInv(c, es);
    var s := Run(c, es);
    match e
    case DrainCalled(task, now, f) =>
      if task !in s.mem.tasks { DrainLeaves(c, s, task, now, f, i); }
    case SendEnded(task, ok, now, f) =>
      if task in s.mem.tasks { SendLeaves(c, s, task, ok, now, f, i); }
    case _ =>
  }

  /** A lost row is neither queued nor buffered, so a drain leaves it. */
  lemma DrainLeaves(c: Config, s: State, task: nat, now: int, f: Fault, i: nat)
    requires Inv(s) && i < |s.table.rows| && s.table.rows[i].severity == Critical && i !in s.mem.critQ
    ensures var s' := DrainClosed(c, s, task, now, f);
            i < |s'.table.rows| && s'.table.rows[i] == s.table.rows[i] && i !in s'.mem.critQ
  {
    PoppedKeeps(s, f);
    RestIsSuffix(s.table, s.mem.critQ, f);
    FlushLeaves(c, Popped(s, f), now, PopLoop(s.table, s.mem.critQ, f).f, i);
  }

  lemma FlushLeaves(c: Config, s: State, now: int, f: Fault, i: nat)
    requires Inv(s) && i < |s.table.rows| && s.table.rows[i].severity == Critical
    ensures var s' := Locked(c, s, now, f);
            i < |s'.table.rows| && s'.table.rows[i] == s.table.rows[i]
  {
    LockedKeeps(c, s, now, f);
    var ids := Ids(s.mem.buffer[..BatchLength(c, s.mem)]);
    forall k | 0 <= k < |ids| ensures ids[k] != i {
      assert Ids(s.mem.buffer)[k] == ids[k] && IsHeld(s.table.rows, s.mem.run, Warning, Ids(s.mem.buffer)[k]);
    }
  }

  lemma {:induction false} RestIsSuffix(t: Table, queue: seq<nat>, f: Fault)
    ensures var rest := PopLoop(t, queue, f).rest;
            |rest| <= |queue| && rest == queue[|queue| - |rest|..]
    decreases |queue|
  {
    if |queue| > 0 && !Raises(f) && !IsPending(t.rows, queue[0]) {
      RestIsSuffix(Write(t, Lock(t.rows, queue[0]), f), queue[1..], Later(f));
    }
  }

  lemma SendLeaves(c: Config, s: State, task: nat, ok: bool, now: int, f: Fault, i: nat)
    requires Inv(s) && task in s.mem.tasks && i < |s.table.rows| && i !in s.mem.critQ
    requires Awaits(s.table.rows[i], s.mem.run, Critical)
    ensures var s' := SendEnds(c, s, task, ok, now, f);
            i < |s'.table.rows| && s'.table.rows[i] == s.table.rows[i] && i !in s'.mem.critQ
  {
    ResultedKeeps(s, task, ok, f);
    var s1 := Resulted(s, task, ok, f);
    var status := if ok then Delivered else Failed;
    ResultsLeave(s, task, status, f, i);
    assert Inv(Judged(c, s1, ok, now));
    DrainLeaves(c, Judged(c, s1, ok, now), task, now, Results(s, task, ok, f).f, i);
  }

  lemma ResultsLeave(s: State, task: nat, status: Status, f: Fault, i: nat)
    requires Inv(s) && task in s.mem.tasks && IsPending(s.table.rows, i) && (status == Delivered || status == Failed)
    ensures var rows := UpdateLoop(s.table, IdsOf(s.mem.tasks[task]), status, f).table.rows;
            i < |rows| && rows[i] == s.table.rows[i]
  {
    var ids := IdsOf(s.mem.tasks[task]);
    forall k | 0 <= k < |ids| ensures IsSending(s.table.rows, ids[k]) && ids[k] in s.past.sent {
      assert Sends(s.mem.tasks, task, ids[k]);
    }
    assert SendOk(s.mem.tasks[task]);
    ResultsKeep(s.table, ids, status, f, s.past.sent);
  }

  /** A row that is sending although no sender was ever given it: nothing will ever write its result. */
  predicate Stranded(s: State, i: nat) {
    i < |s.table.rows| && s.table.rows[i].status == Sending && i !in s.past.sent
  }

  /** Only a raise strands a row. */
  lemma NoRaiseStrandsNothing(c: Config, es: seq<Event>, e: Event, i: nat)
    requires FaultOf(e) == NoFault && Stranded(Step(c, Run(c, es), e), i)
    ensures Stranded(Run(c, es), i)
  {
    var s := Run(c, es);
    RunKeepsInv(c, es);
    if e.DrainCalled? {
      if e.task !in s.mem.tasks && !(s.mem.breaker.Open? && e.now < s.mem.breaker.until) {
        if s.mem.breaker.Closed? {
          DrainStrandsNothing(c, s, e.task, e.now, i);
        } else {
          ProbeStrandsNothing(s.(mem := s.mem.(breaker := HalfOpen)), e.task, i);
        }
      }
    } else if e.SendEnded? {
      if e.task in s.mem.tasks { SendStrandsNothing(c, s, e.task, e.ok, e.now, i); }
    } else {
      OthersStrandNothing(c, s, e, i);
    }
  }

  lemma OthersStrandNothing(c: Config, s: State, e: Event, i: nat)
    requires Inv(s) && FaultOf(e) == NoFault && !e.DrainCalled? && !e.SendEnded? && Stranded(Step(c, s, e), i)
    ensures Stranded(s, i)
  {
    if e.Restarted? { assert Reaches(s.table.disk[i], s.table.rows[i]); }
  }

  lemma ProbeStrandsNothing(s: State, task: nat, i: nat)
    requires Stranded(HalfOpenTest(s, task, NoFault), i)
    ensures Stranded(s, i)
  {
  }

  lemma PopStrandsNothing(s: State, i: nat)
    requires Inv(s) && Stranded(Popped(s, NoFault), i)
    ensures Stranded(s, i) || PopLoop(s.table, s.mem.critQ, NoFault).found == Some(i)
  {
    PoppedKeeps(s, NoFault);
    QuietPop(s.table, s.mem.critQ);
  }

  lemma LocksStrandNothing(c: Config, s: State, now: int, i: nat)
    requires Inv(s) && Stranded(Locked(c, s, now, NoFault), i)
    ensures Stranded(s, i) || i in LockBatch(c, s, NoFault).locked
  {
    LockedKeeps(c, s, now, NoFault);
    QuietLocks(s.table, Ids(s.mem.buffer[..BatchLength(c, s.mem)]));
  }

  lemma FlushStrandsNothing(c: Config, s: State, task: nat, now: int, i: nat)
    requires Inv(s) && Stranded(Flush(c, s, task, now, NoFault), i)
    ensures Stranded(s, i)
  {
    QuietLocks(s.table, Ids(s.mem.buffer[..BatchLength(c, s.mem)]));
    assert Stranded(Locked(c, s, now, NoFault), i);
    LocksStrandNothing(c, s, now, i);
  }

  lemma DrainStrandsNothing(c: Config, s: State, task: nat, now: int, i: nat)
    requires Inv(s) && Stranded(DrainClosed(c, s, task, now, NoFault), i)
    ensures Stranded(s, i)
  {
    var end, s1 := PopLoop(s.table, s.mem.critQ, NoFault), Popped(s, NoFault);
    QuietPop(s.table, s.mem.critQ);
    PoppedKeeps(s, NoFault);
    if end.found.None? && Ready(c, s1.mem, now) { FlushStrandsNothing(c, s1, task, now, i); }
    assert Stranded(s1, i);
    PopStrandsNothing(s, i);
  }

  lemma SendStrandsNothing(c: Config, s: State, task: nat, ok: bool, now: int, i: nat)
    requires Inv(s) && task in s.mem.tasks && Stranded(SendEnds(c, s, task, ok, now, NoFault), i)
    ensures Stranded(s, i)
  {
    ResultedKeeps(s, task, ok, NoFault);
    QuietResults(s.table, IdsOf(s.mem.tasks[task]), if ok then Delivered else Failed);
    var s1 := Judged(c, Resulted(s, task, ok, NoFault), ok, now);
    assert Inv(s1);
    if s.mem.tasks[task].Single? && s.mem.tasks[task].goesOn { DrainStrandsNothing(c, s1, task, now, i); }
    ResultsStrandNothing(s, task, ok, i);
  }

  lemma ResultsStrandNothing(s: State, task: nat, ok: bool, i: nat)
    requires Inv(s) && task in s.mem.tasks && Stranded(Resulted(s, task, ok, NoFault), i)
    ensures Stranded(s, i)
  {
    var ids := IdsOf(s.mem.tasks[task]);
    forall k | 0 <= k < |ids| ensures IsSending(s.table.rows, ids[k]) && ids[k] in s.past.sent {
      assert Sends(s.mem.tasks, task, ids[k]);
    }
    assert SendOk(s.mem.tasks[task]);
    ResultsKeep(s.table, ids, if ok then Delivered else Failed, NoFault, s.past.sent);
  }

  /** Whether the k-th lock of a batch has taken effect when the n-th raises. */
  predicate TookEffect(k: int, n: int, stays: bool) { k < n || (k == n && stays) }

  ghost predicate BatchTookEffect(rows: seq<Row>, rows': seq<Row>, ids: seq<nat>, n: int, stays: bool) {
    && |rows'| == |rows|
    && (forall i: nat :: i < |rows| && i !in ids ==> rows'[i] == rows[i])
    && (forall k :: 0 <= k < |ids| ==> LockTookEffect(rows, rows', ids[k], TookEffect(k, n, stays)))
  }

  predicate LockTookEffect(rows: seq<Row>, rows': seq<Row>, id: nat, took: bool) {
    id < |rows| == |rows'| && rows'[id] == if took then rows[id].(status := Sending) else rows[id]
  }

  /** A lock that raises in the middle of a batch: the rows before it are sending, the rows behind it
      pending, and its own one or the other by whether the statement stays. */
  lemma {:induction false} RaisedBatch(t: Table, ids: seq<nat>, n: nat, stays: bool)
    requires n < |ids| && AllDistinct(ids) && AllPending(t.rows, ids)
    ensures var end := LockLoop(t, ids, At(n, stays));
            end.left == ids[n..] && BatchTookEffect(t.rows, end.table.rows, ids, n, stays)
    decreases |ids|
  {
    var rows' := Write(t, Lock(t.rows, ids[0]), At(n, stays)).rows;
    assert IsPending(t.rows, ids[0]);
    FirstLock(t.rows, rows', ids, n, stays);
    if n > 0 {
      var t' := Write(t, Lock(t.rows, ids[0]), At(n, stays));
      RaisedBatch(t', ids[1..], n - 1, stays);
      RestOfBatch(t.rows, t'.rows, LockLoop(t', ids[1..], At(n - 1, stays)).table.rows, ids, n, stays);
    }
  }

  lemma FirstLock(rows: seq<Row>, rows': seq<Row>, ids: seq<nat>, n: nat, stays: bool)
    requires |ids| > 0 && AllDistinct(ids) && AllPending(rows, ids)
    requires rows' == if TookEffect(0, n, stays) then Lock(rows, ids[0]) else rows
    ensures n == 0 ==> BatchTookEffect(rows, rows', ids, n, stays)
    ensures n > 0 ==> AllDistinct(ids[1..]) && AllPending(rows', ids[1..])
  {
    forall k | 0 <= k < |ids| ensures k > 0 ==> IsPending(rows', ids[k]) && rows'[ids[k]] == rows[ids[k]] {
      assert IsPending(rows, ids[k]) && IsPending(rows, ids[0]);
    }
    forall k | 0 <= k < |ids[1..]| ensures IsPending(rows', ids[1..][k]) { assert ids[1..][k] == ids[k + 1]; }
    forall j, k | 0 <= j < k < |ids[1..]| ensures ids[1..][j] != ids[1..][k] {
      assert ids[1..][j] == ids[j + 1] && ids[1..][k] == ids[k + 1];
    }
  }

  lemma RestOfBatch(rows: seq<Row>, mid: seq<Row>, rows': seq<Row>, ids: seq<nat>, n: nat, stays: bool)
    requires |ids| > 0 && AllDistinct(ids) && AllPending(rows, ids) && n > 0 && mid == Lock(rows, ids[0])
    requires BatchTookEffect(mid, rows', ids[1..], n - 1, stays)
    ensures BatchTookEffect(rows, rows', ids, n, stays)
  {
    var rest := ids[1..];
    assert ids == [ids[0]] + rest && IsPending(rows, ids[0]);
    forall k | 0 <= k < |ids| ensures LockTookEffect(rows, rows', ids[k], TookEffect(k, n, stays)) {
      if k == 0 {
        forall j | 0 <= j < |rest| ensures rest[j] != ids[0] { assert rest[j] == ids[j + 1]; }
      } else {
        assert rest[k - 1] == ids[k] && LockTookEffect(mid, rows', rest[k - 1], TookEffect(k - 1, n - 1, stays));
      }
    }
  }

  /** What a raise in a flush costs: no row of the batch is handed over or buffered any more; those
      locked so far are stranded in status sending, the others stay pending. */
  lemma FlushRaiseStrandsTheBatch(c: Config, s: State, task: nat, now: int, n: nat, stays: bool, k: nat)
    requires Inv(s) && n < BatchLength(c, s.mem) && k < BatchLength(c, s.mem)
    ensures var s', id := Flush(c, s, task, now, At(n, stays)), s.mem.buffer[k].id;
            && s'.past.sent == s.past.sent && s'.mem.tasks == s.mem.tasks && id !in Ids(s'.mem.buffer)
            && (Stranded(s', id) <==> TookEffect(k, n, stays))
            && (IsPending(s'.table.rows, id) <==> !TookEffect(k, n, stays))
  {
    var all, m := Ids(s.mem.buffer), BatchLength(c, s.mem);
    var ids := Ids(s.mem.buffer[..m]);
    BatchIsDistinct(s, m);
    forall j | 0 <= j < |ids| ensures IsPending(s.table.rows, ids[j]) {
      assert all[j] == ids[j] && IsPending(s.table.rows, all[j]);
    }
    RaisedBatch(s.table, ids, n, stays);
    assert all[k] == ids[k] == s.mem.buffer[k].id;
    var rows' := LockLoop(s.table, ids, At(n, stays)).table.rows;
    assert LockTookEffect(s.table.rows, rows', ids[k], TookEffect(k, n, stays));
    PendingIsUnsent(s.table, s.past.sent, ids[k]);
    CutRows(s, m, k);
  }

  lemma CutRows(s: State, m: nat, k: nat)
    requires Inv(s) && k < m <= |s.mem.buffer|
    ensures s.mem.buffer[k].id !in Ids(s.mem.buffer[m..])
  {
    var all, rest := Ids(s.mem.buffer), Ids(s.mem.buffer[m..]);
    forall j | 0 <= j < |rest| ensures rest[j] != s.mem.buffer[k].id {
      assert rest[j] == all[m + j] && all[k] != all[m + j];
    }
  }

  // ---------------------------------------------------------------- a half-open breaker

  /** Half-open, with nothing in flight and no critical row pending. */
  ghost predicate Stalled(s: State) {
    s.mem.breaker.HalfOpen? && s.mem.tasks == map[] && NoPendingCritical(s.table.rows)
  }

  ghost predicate NoPendingCritical(rows: seq<Row>) {
    forall i: nat :: i < |rows| ==> !IsPendingCritical(rows[i])
  }

  lemma StalledStep(c: Config, s: State, e: Event)
    requires Stalled(s) && !e.CriticalEmitted? && !e.Restarted?
    ensures var s' := Step(c, s, e);
            Stalled(s') && s'.past.sent == s.past.sent && s.table.rows <= s'.table.rows
  {
    if e.DrainCalled? { OldestIsOldest(s.table.rows, |s.table.rows|); }
  }

  /** Whatever drains, warnings and information events follow, a stalled agent hands nothing over: its
      buffered warnings wait until a critical alert is emitted or the process restarts. */
  lemma {:induction false} HalfOpenStalls(c: Config, s: State, es: seq<Event>)
    requires Stalled(s) && forall k :: 0 <= k < |es| ==> !es[k].CriticalEmitted? && !es[k].Restarted?
    ensures var s' := Continue(c, s, es);
            Stalled(s') && s'.past.sent == s.past.sent && s.table.rows <= s'.table.rows
    decreases |es|
  {
    if |es| > 0 {
      StalledStep(c, s, es[0]);
      HalfOpenStalls(c, Step(c, s, es[0]), es[1..]);
    }
  }

  function OneRow(status: Status): Table {
    Table([Row(Critical, 1, status, 0)], [Row(Critical, 1, status, 0)])
  }

  const QUEUED := State(OneRow(Pending), FreshMemory(0).(critQ := [0]), Past([], {}, {}, {}))
  const IN_FLIGHT := State(OneRow(Sending), FreshMemory(0).(tasks := map[0 := Single(0, true)]), Past([0], {}, {}, {}))

  lemma OneAlertQueued(c: Config)
    ensures Run(c, [CriticalEmitted(1, NoFault)]) == QUEUED
  {
    assert [CriticalEmitted(1, NoFault)][..0] == [];
  }

  lemma OneAlertSent(c: Config)
    ensures Step(c, QUEUED, DrainCalled(0, 0, NoFault)) == IN_FLIGHT
  {
    assert PopLoop(QUEUED.table, [0], NoFault) == PopEnd(OneRow(Sending), [], Some(0), None, NoFault);
  }

  lemma OneAlertFails(c: Config, s: State)
    requires c.failThreshold == 1 && s == Step(c, IN_FLIGHT, SendEnded(0, false, 0, NoFault))
    ensures s.table == OneRow(Failed) && s.mem.breaker == Open(c.openFor) && s.mem.tasks == map[]
  {
    var t := IN_FLIGHT.table;
    assert UpdateLoop(OneRow(Failed), [], Failed, NoFault) == UpdateEnd(OneRow(Failed), false, NoFault);
    assert Results(IN_FLIGHT, 0, false, NoFault) == UpdateEnd(OneRow(Failed), false, NoFault);
    assert map[0 := Single(0, true)] - {0} == map[];
  }

  /** One failed alert is enough to stall a breaker that opens at the first failure. */
  lemma StallIsReachable(c: Config)
    requires c.failThreshold == 1
    ensures Stalled(Run(c, [CriticalEmitted(1, NoFault), DrainCalled(0, 0, NoFault), SendEnded(0, false, 0, NoFault),
                            DrainCalled(1, c.openFor, NoFault)]))
  {
    var e1, e2 := CriticalEmitted(1, NoFault), DrainCalled(0, 0, NoFault);
    var e3, e4 := SendEnded(0, false, 0, NoFault), DrainCalled(1, c.openFor, NoFault);
    assert [e1, e2][..1] == [e1] && [e1, e2, e3][..2] == [e1, e2] && [e1, e2, e3, e4][..3] == [e1, e2, e3];
    OneAlertQueued(c);
    OneAlertSent(c);
    assert Run(c, [e1, e2]) == Step(c, QUEUED, e2) == IN_FLIGHT;
    assert Run(c, [e1, e2, e3]) == Step(c, IN_FLIGHT, e3);
    OneAlertFails(c, Run(c, [e1, e2, e3]));
  }
}
