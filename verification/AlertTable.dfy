/** What the alert table keeps through any writes, raising ones included. */
module AlertTable {
  import opened AlertSpec

  // ---------------------------------------------------------------- status moves

  /** One status may follow another, over any number of writes. */
  predicate MayReach(a: Status, b: Status) {
    a == b || a == Pending || (a == Sending && (b == Delivered || b == Failed))
  }

  predicate Reaches(a: Row, b: Row) {
    a.severity == b.severity && a.ts == b.ts && a.run == b.run && MayReach(a.status, b.status)
  }

  /** Rows stay where they are and keep what they say; only statuses move, and only forward. */
  ghost predicate Moves(before: seq<Row>, after: seq<Row>) {
    |before| <= |after| && forall i :: 0 <= i < |before| ==> Reaches(before[i], after[i])
  }

  lemma MovesOn(a: seq<Row>, b: seq<Row>, c: seq<Row>)
    requires Moves(a, b) && Moves(b, c)
    ensures Moves(a, c)
  {
    forall i | 0 <= i < |a| ensures Reaches(a[i], c[i]) {
      assert Reaches(a[i], b[i]) && Reaches(b[i], c[i]);
    }
  }

  // ---------------------------------------------------------------- the table

  /** No sender takes an information row. */
  predicate Sound(row: Row) {
    row.status == Sending || row.status == Failed ==> row.severity != Info
  }

  ghost predicate AllSound(rows: seq<Row>) {
    forall i :: 0 <= i < |rows| ==> Sound(rows[i])
  }

  /** A sender has, or had, the row. */
  predicate Gone(row: Row) {
    row.severity != Info && (row.status == Sending || row.status == Delivered || row.status == Failed)
  }

  ghost predicate IsGone(rows: seq<Row>, id: nat) {
    id < |rows| && Gone(rows[id])
  }

  predicate Finished(row: Row) {
    row.status == Failed || (row.status == Delivered && row.severity != Info)
  }

  /** Nothing was handed over twice, and what was handed over is locked on disk. */
  ghost predicate SentOnce(disk: seq<Row>, sent: seq<nat>) {
    && (forall k :: 0 <= k < |sent| ==> IsGone(disk, sent[k]))
    && (forall j, k :: 0 <= j < k < |sent| ==> sent[j] != sent[k])
  }

  /** A result stands only on rows that were handed over. */
  ghost predicate ResultsSent(rows: seq<Row>, sent: seq<nat>) {
    forall i: nat :: i < |rows| && Finished(rows[i]) ==> i in sent
  }

  ghost predicate TableOk(t: Table, sent: seq<nat>) {
    && Moves(t.disk, t.rows) && AllSound(t.rows) && AllSound(t.disk) && SentOnce(t.disk, sent)
    && ResultsSent(t.rows, sent) && ResultsSent(t.disk, sent)
  }

  lemma GoneMoves(before: seq<Row>, after: seq<Row>, sent: seq<nat>)
    requires Moves(before, after) && SentOnce(before, sent)
    ensures SentOnce(after, sent)
  {
    forall k | 0 <= k < |sent| ensures IsGone(after, sent[k]) {
      assert IsGone(before, sent[k]) && Reaches(before[sent[k]], after[sent[k]]);
    }
  }

  /** A write that moves rows forward keeps the table in order, however it ends. */
  lemma WriteKeeps(t: Table, rows: seq<Row>, f: Fault, sent: seq<nat>)
    requires TableOk(t, sent) && Moves(t.rows, rows) && AllSound(rows) && ResultsSent(rows, sent)
    ensures var t' := Write(t, rows, f);
            TableOk(t', sent) && Moves(t.rows, t'.rows) && Moves(t.disk, t'.disk)
  {
    MovesOn(t.disk, t.rows, rows);
    GoneMoves(t.disk, rows, sent);
  }

  /** Handing over pending rows that have just been locked and committed. */
  lemma HandingKeeps(t: Table, sent: seq<nat>, ids: seq<nat>)
    requires TableOk(t, sent) && forall k :: 0 <= k < |ids| ==> IsGone(t.disk, ids[k]) && ids[k] !in sent
    requires forall j, k :: 0 <= j < k < |ids| ==> ids[j] != ids[k]
    ensures TableOk(t, sent + ids)
  {
    var all := sent + ids;
    forall k | 0 <= k < |all| ensures IsGone(t.disk, all[k]) {
      if k >= |sent| { assert all[k] == ids[k - |sent|]; }
    }
    forall j, k | 0 <= j < k < |all| ensures all[j] != all[k] {
      if k >= |sent| {
        assert all[k] == ids[k - |sent|];
        if j >= |sent| { assert all[j] == ids[j - |sent|]; }
      }
    }
  }

  /** A pending row has not been handed over. */
  lemma PendingIsUnsent(t: Table, sent: seq<nat>, id: nat)
    requires TableOk(t, sent) && IsPending(t.rows, id)
    ensures id !in sent
  {
    forall k | 0 <= k < |sent| ensures sent[k] != id {
      assert IsGone(t.disk, sent[k]) && Reaches(t.disk[sent[k]], t.rows[sent[k]]);
    }
  }

  // ---------------------------------------------------------------- who holds a pending row

  /** Every pending row of this severity and process is held, each once, unless it is lost; and what
      is lost is not held. */
  ghost predicate Holds(rows: seq<Row>, run: nat, severity: Severity, held: seq<nat>, lost: set<nat>) {
    && (forall k :: 0 <= k < |held| ==> IsHeld(rows, run, severity, held[k]) && held[k] !in lost)
    && (forall j, k :: 0 <= j < k < |held| ==> held[j] != held[k])
    && (forall i: nat :: i < |rows| && Awaits(rows[i], run, severity) ==> i in held || i in lost)
    && (forall i :: i in lost ==> i < |rows|)
  }

  predicate Awaits(row: Row, run: nat, severity: Severity) {
    row.status == Pending && row.severity == severity && row.run == run
  }

  predicate IsHeld(rows: seq<Row>, run: nat, severity: Severity, id: nat) {
    id < |rows| && rows[id].severity == severity && rows[id].run == run
  }

  lemma MovingKeepsHolds(
    rows: seq<Row>, rows': seq<Row>, run: nat, severity: Severity, held: seq<nat>, lost: set<nat>)
    requires Holds(rows, run, severity, held, lost) && Moves(rows, rows') && |rows'| == |rows|
    ensures Holds(rows', run, severity, held, lost)
  {
    forall k | 0 <= k < |held| ensures IsHeld(rows', run, severity, held[k]) {
      assert IsHeld(rows, run, severity, held[k]) && Reaches(rows[held[k]], rows'[held[k]]);
    }
    forall i: nat | i < |rows'| && Awaits(rows'[i], run, severity) ensures i in held || i in lost {
      assert Reaches(rows[i], rows'[i]) && Awaits(rows[i], run, severity);
    }
  }

  /** The first row held is let go: it is pending no more, or it is lost. */
  lemma LettingGoKeepsHolds(
    rows: seq<Row>, run: nat, severity: Severity, held: seq<nat>, lost: set<nat>, more: set<nat>)
    requires Holds(rows, run, severity, held, lost) && |held| > 0
    requires more == {held[0]} || (more == {} && !IsPending(rows, held[0]))
    ensures Holds(rows, run, severity, held[1..], lost + more)
  {
    var rest := held[1..];
    forall k | 0 <= k < |rest| ensures IsHeld(rows, run, severity, rest[k]) && rest[k] !in lost + more {
      assert rest[k] == held[k + 1];
    }
    forall j, k | 0 <= j < k < |rest| ensures rest[j] != rest[k] {
      assert rest[j] == held[j + 1] && rest[k] == held[k + 1];
    }
    forall i: nat | i < |rows| && Awaits(rows[i], run, severity) ensures i in rest || i in lost + more {
      assert held == [held[0]] + rest;
    }
  }

  /** A new row is held, lost, or of no concern. */
  lemma NewRowKeepsHolds(
    rows: seq<Row>, run: nat, severity: Severity, held: seq<nat>, lost: set<nat>, row: Row,
    held': seq<nat>, lost': set<nat>)
    requires Holds(rows, run, severity, held, lost) && row.run == run
    requires held' == held || (held' == held + [|rows|] && row.severity == severity)
    requires lost' == lost || (lost' == lost + {|rows|} && held' == held)
    requires row.severity == severity ==> held' != held || lost' != lost
    ensures Holds(rows + [row], run, severity, held', lost')
  {
    var rows' := rows + [row];
    assert |rows| !in held by {
      forall k | 0 <= k < |held| ensures held[k] != |rows| { assert IsHeld(rows, run, severity, held[k]); }
    }
    forall k | 0 <= k < |held'| ensures IsHeld(rows', run, severity, held'[k]) && held'[k] !in lost' {
      if k < |held| { assert IsHeld(rows, run, severity, held[k]) && held'[k] == held[k]; }
    }
    forall i: nat | i < |rows'| && Awaits(rows'[i], run, severity) ensures i in held' || i in lost' {
      if i < |rows| {
        assert Awaits(rows[i], run, severity);
      }
    }
  }

  // ---------------------------------------------------------------- locks

  /** Pending rows of one severity may have become sending; nothing else changed. */
  ghost predicate LocksOnly(before: seq<Row>, after: seq<Row>, severity: Severity) {
    |after| == |before| && forall i :: 0 <= i < |before| ==> LockedOrSame(before[i], after[i], severity)
  }

  predicate LockedOrSame(a: Row, b: Row, severity: Severity) {
    b == a || (a.status == Pending && a.severity == severity && b == a.(status := Sending))
  }

  lemma LocksMove(before: seq<Row>, after: seq<Row>, severity: Severity)
    requires LocksOnly(before, after, severity)
    ensures Moves(before, after)
  {
    forall i | 0 <= i < |before| ensures Reaches(before[i], after[i]) {
      assert LockedOrSame(before[i], after[i], severity);
    }
  }

  lemma LocksOn(a: seq<Row>, b: seq<Row>, c: seq<Row>, severity: Severity)
    requires LocksOnly(a, b, severity) && LocksOnly(b, c, severity)
    ensures LocksOnly(a, c, severity)
  {
    forall i | 0 <= i < |a| ensures LockedOrSame(a[i], c[i], severity) {
      assert LockedOrSame(a[i], b[i], severity) && LockedOrSame(b[i], c[i], severity);
    }
  }

  /** One lock, however it ends. */
  lemma LockKeeps(t: Table, id: nat, f: Fault, sent: seq<nat>, severity: Severity)
    requires TableOk(t, sent) && severity != Info && id < |t.rows| && t.rows[id].severity == severity
    ensures var t' := Write(t, Lock(t.rows, id), f);
            && TableOk(t', sent) && Moves(t.disk, t'.disk) && LocksOnly(t.rows, t'.rows, severity)
            && (!Raises(f) ==> t'.disk == t'.rows && !IsPending(t'.rows, id))
            && (!Raises(f) && IsPending(t.rows, id) ==> IsGone(t'.disk, id) && IsSending(t'.rows, id))
            && (forall i: nat :: i < |t.rows| && i != id ==> t'.rows[i] == t.rows[i])
  {
    var rows := Lock(t.rows, id);
    assert LocksOnly(t.rows, rows, severity);
    LocksMove(t.rows, rows, severity);
    assert AllSound(rows) by {
      forall i | 0 <= i < |rows| ensures Sound(rows[i]) { assert Sound(t.rows[i]); }
    }
    assert ResultsSent(rows, sent) by {
      forall i: nat | i < |rows| && Finished(rows[i]) ensures i in sent { assert rows[i] == t.rows[i]; }
    }
    WriteKeeps(t, rows, f, sent);
  }

  predicate IsSending(rows: seq<Row>, id: nat) {
    id < |rows| && rows[id].status == Sending && rows[id].severity != Info
  }

  // ---------------------------------------------------------------- results

  /** One result written to a row that is being sent, however the write ends. */
  lemma ResultKeeps(t: Table, id: nat, status: Status, f: Fault, sent: seq<nat>)
    requires TableOk(t, sent) && IsSending(t.rows, id) && id in sent && (status == Delivered || status == Failed)
    ensures var t' := Write(t, SetStatus(t.rows, id, status), f);
            && TableOk(t', sent) && Moves(t.disk, t'.disk) && Moves(t.rows, t'.rows) && |t'.rows| == |t.rows|
            && forall i: nat :: i < |t.rows| && i != id ==> t'.rows[i] == t.rows[i]
  {
    var rows := SetStatus(t.rows, id, status);
    assert Moves(t.rows, rows);
    assert AllSound(rows) by {
      forall i | 0 <= i < |rows| ensures Sound(rows[i]) { assert Sound(t.rows[i]); }
    }
    assert ResultsSent(rows, sent) by {
      forall i: nat | i < |rows| && Finished(rows[i]) ensures i in sent {
        if i != id { assert rows[i] == t.rows[i]; }
      }
    }
    WriteKeeps(t, rows, f, sent);
  }

  // ---------------------------------------------------------------- new rows

  lemma InsertKeeps(t: Table, row: Row, f: Fault, sent: seq<nat>)
    requires TableOk(t, sent) && row.status == Pending
    ensures var t' := Write(t, t.rows + [row], f);
            TableOk(t', sent) && Moves(t.rows, t'.rows) && Moves(t.disk, t'.disk)
  {
    var rows := t.rows + [row];
    assert Moves(t.rows, rows);
    assert AllSound(rows) by {
      forall i | 0 <= i < |rows| ensures Sound(rows[i]) { if i < |t.rows| { assert Sound(t.rows[i]); } }
    }
    assert ResultsSent(rows, sent) by {
      forall i: nat | i < |rows| && Finished(rows[i]) ensures i in sent { assert rows[i] == t.rows[i]; }
    }
    WriteKeeps(t, rows, f, sent);
  }

  /** An information row is delivered without a sender. */
  lemma InfoKeeps(t: Table, id: nat, f: Fault, sent: seq<nat>)
    requires TableOk(t, sent) && IsPending(t.rows, id) && t.rows[id].severity == Info
    ensures var t' := Write(t, SetStatus(t.rows, id, Delivered), f);
            TableOk(t', sent) && Moves(t.rows, t'.rows) && Moves(t.disk, t'.disk) && |t'.rows| == |t.rows|
  {
    var rows := SetStatus(t.rows, id, Delivered);
    assert Moves(t.rows, rows);
    assert AllSound(rows) by {
      forall i | 0 <= i < |rows| ensures Sound(rows[i]) { assert Sound(t.rows[i]); }
    }
    assert ResultsSent(rows, sent) by {
      forall i: nat | i < |rows| && Finished(rows[i]) ensures i in sent { assert rows[i] == t.rows[i]; }
    }
    WriteKeeps(t, rows, f, sent);
  }

  // ---------------------------------------------------------------- a new process

  /** The connection of a new process sees what is on disk; its sweep expires pending rows only. */
  lemma RestartKeeps(t: Table, cutoff: int, f: Fault, sent: seq<nat>)
    requires TableOk(t, sent)
    ensures var t' := Write(Table(t.disk, t.disk), Sweep(t.disk, cutoff), f);
            TableOk(t', sent) && Moves(t.disk, t'.disk) && |t'.rows| == |t.disk|
  {
    var reread, rows := Table(t.disk, t.disk), Sweep(t.disk, cutoff);
    assert Moves(t.disk, t.disk) && Moves(t.disk, rows);
    assert AllSound(rows) by {
      forall i | 0 <= i < |rows| ensures Sound(rows[i]) { assert Sound(t.disk[i]); }
    }
    assert ResultsSent(rows, sent) by {
      forall i: nat | i < |rows| && Finished(rows[i]) ensures i in sent { assert rows[i] == t.disk[i]; }
    }
    WriteKeeps(reread, rows, f, sent);
  }
}
