/** Rows that stay `sending` for good: their send was cancelled, or died with its process, or was never
  started. Lock, sweep and probe take pending rows only, so nothing ever takes them up again.
 */
module AlertAbandoned {
  import opened Basics
  import opened AlertSpec
  import opened AlertTable
  import opened AlertRuns
  import opened AlertGuarantees

  /** The row is sending, on disk and as the process sees it. */
  predicate Held(t: Table, i: nat, row: Row) {
    i < |t.rows| && i < |t.disk| && t.rows[i] == t.disk[i] == row && row.status == Sending
  }

  ghost predicate Abandoned(s: State, i: nat, row: Row) {
    Held(s.table, i, row) && forall task :: !Sends(s.mem.tasks, task, i)
  }

  // ---------------------------------------------------------------- writes

  lemma {:induction false} PopHolds(t: Table, queue: seq<nat>, f: Fault, i: nat, row: Row)
    requires Held(t, i, row)
    ensures var end := PopLoop(t, queue, f); Held(end.table, i, row) && end.found != Some(i)
    decreases |queue|
  {
    if |queue| > 0 && !Raises(f) && !IsPending(t.rows, queue[0]) {
      PopHolds(Write(t, Lock(t.rows, queue[0]), f), queue[1..], Later(f), i, row);
    }
  }

  lemma {:induction false} LocksHold(t: Table, ids: seq<nat>, f: Fault, i: nat, row: Row)
    requires Held(t, i, row)
    ensures var end := LockLoop(t, ids, f); Held(end.table, i, row) && i !in end.locked
    decreases |ids|
  {
    if |ids| > 0 && !Raises(f) {
      LocksHold(Write(t, Lock(t.rows, ids[0]), f), ids[1..], Later(f), i, row);
    }
  }

  lemma {:induction false} ResultsHold(t: Table, ids: seq<nat>, status: Status, f: Fault, i: nat, row: Row)
    requires Held(t, i, row) && i !in ids
    ensures Held(UpdateLoop(t, ids, status, f).table, i, row)
    decreases |ids|
  {
    if |ids| > 0 && !Raises(f) {
      ResultsHold(Write(t, SetStatus(t.rows, ids[0], status), f), ids[1..], status, Later(f), i, row);
    }
  }

  // ---------------------------------------------------------------- steps

  lemma HandedLeaves(s: State, task: nat, send: InFlight, i: nat, row: Row)
    requires Abandoned(s, i, row) && i !in IdsOf(send)
    ensures Abandoned(Handed(s, task, send), i, row)
  {
    forall t ensures !Sends(Handed(s, task, send).mem.tasks, t, i) { assert !Sends(s.mem.tasks, t, i); }
  }

  lemma FlushLeavesSending(c: Config, s: State, task: nat, now: int, f: Fault, i: nat, row: Row)
    requires Abandoned(s, i, row)
    ensures Abandoned(Flush(c, s, task, now, f), i, row)
  {
    var ids := Ids(s.mem.buffer[..BatchLength(c, s.mem)]);
    LocksHold(s.table, ids, f, i, row);
    var end := LockBatch(c, s, f);
    if |end.left| == 0 && |end.locked| > 0 {
      HandedLeaves(Locked(c, s, now, f), task, Batch(end.locked, s.mem.buffer[..BatchLength(c, s.mem)]), i, row);
    }
  }

  lemma DrainLeavesSending(c: Config, s: State, task: nat, now: int, f: Fault, i: nat, row: Row)
    requires Abandoned(s, i, row)
    ensures Abandoned(DrainClosed(c, s, task, now, f), i, row)
  {
    var end, s1 := PopLoop(s.table, s.mem.critQ, f), Popped(s, f);
    PopHolds(s.table, s.mem.critQ, f, i, row);
    if end.raised.None? && end.found.Some? {
      HandedLeaves(s1, task, Single(end.found.value, true), i, row);
    } else if end.raised.None? && Ready(c, s1.mem, now) {
      FlushLeavesSending(c, s1, task, now, end.f, i, row);
    }
  }

  lemma ProbeLeavesSending(s: State, task: nat, f: Fault, i: nat, row: Row)
    requires Abandoned(s, i, row)
    ensures Abandoned(HalfOpenTest(s, task, f), i, row)
  {
    var hit := OldestCritical(s.table.rows, |s.table.rows|);
    OldestIsOldest(s.table.rows, |s.table.rows|);
    if hit.Some? && !Raises(f) { HandedLeaves(Probed(s, hit.value, f), task, Single(hit.value, false), i, row); }
  }

  lemma SendLeavesSending(c: Config, s: State, task: nat, ok: bool, now: int, f: Fault, i: nat, row: Row)
    requires Abandoned(s, i, row) && task in s.mem.tasks
    ensures Abandoned(SendEnds(c, s, task, ok, now, f), i, row)
  {
    assert !Sends(s.mem.tasks, task, i);
    ResultsHold(s.table, IdsOf(s.mem.tasks[task]), if ok then Delivered else Failed, f, i, row);
    var s1 := Resulted(s, task, ok, f);
    forall t ensures !Sends(s1.mem.tasks, t, i) { assert !Sends(s.mem.tasks, t, i); }
    var end := Results(s, task, ok, f);
    assert Abandoned(Judged(c, s1, ok, now), i, row);
    if !end.raised && s.mem.tasks[task].Single? && s.mem.tasks[task].goesOn {
      DrainLeavesSending(c, Judged(c, s1, ok, now), task, now, end.f, i, row);
    }
  }

  lemma EmitLeavesSending(c: Config, s: State, e: Event, i: nat, row: Row)
    requires Abandoned(s, i, row) && (e.InfoEmitted? || e.CriticalEmitted? || e.WarningEmitted?)
    ensures Abandoned(Step(c, s, e), i, row)
  {
    assert Step(c, s, e).mem.tasks == s.mem.tasks;
  }

  lemma RestartLeavesSending(s: State, cutoff: int, f: Fault, i: nat, row: Row)
    requires Held(s.table, i, row)
    ensures Abandoned(Restart(s, cutoff, f), i, row)
  {
  }

  lemma StepLeavesSending(c: Config, s: State, e: Event, i: nat, row: Row)
    requires Abandoned(s, i, row)
    ensures Abandoned(Step(c, s, e), i, row)
  {
    match e
    case InfoEmitted(_, _) | CriticalEmitted(_, _) | WarningEmitted(_, _, _, _) => EmitLeavesSending(c, s, e, i, row);
    case DrainCalled(task, now, f) =>
      if s.mem.breaker.Closed? {
        if task !in s.mem.tasks { DrainLeavesSending(c, s, task, now, f, i, row); }
      } else {
        ProbeLeavesSending(s.(mem := s.mem.(breaker := HalfOpen)), task, f, i, row);
      }
    case SendEnded(task, ok, now, f) =>
      if task in s.mem.tasks { SendLeavesSending(c, s, task, ok, now, f, i, row); }
    case Cancelled(task) =>
      forall t ensures !Sends(s.mem.tasks - {task}, t, i) { assert !Sends(s.mem.tasks, t, i); }
    case Restarted(cutoff, f) => RestartLeavesSending(s, cutoff, f, i, row);
    case Committed =>
  }

  // ---------------------------------------------------------------- for good

  /** A row that is sending with no send in flight never changes any more: no drain, probe, result, sweep
      or restart touches it, however writes end. */
  lemma {:induction false} AbandonedForGood(c: Config, s: State, es: seq<Event>, i: nat, row: Row)
    requires Abandoned(s, i, row)
    ensures Abandoned(Continue(c, s, es), i, row)
    decreases |es|
  {
    if |es| > 0 {
      StepLeavesSending(c, s, es[0], i, row);
      AbandonedForGood(c, Step(c, s, es[0]), es[1..], i, row);
    }
  }

  /** The rows of a send are sending on disk too. */
  lemma SendIsHeld(s: State, task: nat, i: nat)
    requires Inv(s) && Sends(s.mem.tasks, task, i)
    ensures i < |s.table.rows| && Held(s.table, i, s.table.rows[i])
  {
    assert IsSending(s.table.rows, i) && i in s.past.sent;
    var k :| 0 <= k < |s.past.sent| && s.past.sent[k] == i;
    assert IsGone(s.table.disk, s.past.sent[k]) && Reaches(s.table.disk[i], s.table.rows[i]);
  }

  /** Cancelling a send abandons every row it carries. */
  lemma CancelAbandons(c: Config, es: seq<Event>, task: nat, i: nat)
    requires Sends(Run(c, es).mem.tasks, task, i)
    ensures var s := Run(c, es); i < |s.table.rows| && Abandoned(Step(c, s, Cancelled(task)), i, s.table.rows[i])
  {
    RunKeepsInv(c, es);
    SendIsHeld(Run(c, es), task, i);
    var tasks := Run(c, es).mem.tasks;
    forall t ensures !Sends(tasks - {task}, t, i) { assert Sends(tasks, t, i) ==> t == task; }
  }

  /** A new process abandons every row whose send the old one had in flight. */
  lemma RestartAbandons(c: Config, es: seq<Event>, task: nat, i: nat, cutoff: int, f: Fault)
    requires Sends(Run(c, es).mem.tasks, task, i)
    ensures var s := Run(c, es);
            i < |s.table.rows| && Abandoned(Step(c, s, Restarted(cutoff, f)), i, s.table.rows[i])
  {
    RunKeepsInv(c, es);
    SendIsHeld(Run(c, es), task, i);
    RestartLeavesSending(Run(c, es), cutoff, f, i, Run(c, es).table.rows[i]);
  }
}
