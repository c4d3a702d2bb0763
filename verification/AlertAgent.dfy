/** The alert agent and its table. Each method of the agent is the code between two awaits; f says which
  of its database writes raises.
 */
module AlertAgent {
  import opened Basics
  import opened AlertSpec

  /** The table behind one connection. */
  class Database {
    var rows: seq<Row>   // as the connection sees it
    var disk: seq<Row>   // as last committed

    ghost function Abs(): Table
      reads this
    {
      Table(rows, disk)
    }

    constructor ()
      ensures Abs() == Table([], [])
    {
      rows, disk := [], [];
    }

    /** A statement with this effect, and its commit. */
    method Execute(effect: seq<Row>, f: Fault) returns (raised: bool)
      modifies this
      ensures Abs() == Write(old(Abs()), effect, f) && raised == Raises(f)
    {
      raised := Raises(f);
      if raised && !f.stays { return; }
      rows := effect;
      if !raised { disk := rows; }
    }

    method Insert(severity: Severity, ts: int, run: nat, f: Fault) returns (id: nat, raised: bool)
      modifies this
      ensures Abs() == Write(old(Abs()), old(rows) + [Row(severity, ts, Pending, run)], f) && raised == Raises(f)
      ensures id == |old(rows)|
    {
      id := |rows|;
      raised := Execute(rows + [Row(severity, ts, Pending, run)], f);
    }

    /** The conditional update; hit: it found a pending row. */
    method OptimisticSending(id: nat, f: Fault) returns (hit: bool, raised: bool)
      modifies this
      ensures Abs() == Write(old(Abs()), Lock(old(rows), id), f) && raised == Raises(f)
      ensures !raised ==> hit == IsPending(old(rows), id)
    {
      hit := id < |rows| && rows[id].status == Pending;
      raised := Execute(if hit then rows[id := rows[id].(status := Sending)] else rows, f);
    }

    method UpdateStatus(id: nat, status: Status, f: Fault) returns (raised: bool)
      modifies this
      ensures Abs() == Write(old(Abs()), SetStatus(old(rows), id, status), f) && raised == Raises(f)
    {
      raised := Execute(SetStatus(rows, id, status), f);
    }

    method Oldest() returns (best: Option<nat>)
      ensures best == OldestCritical(rows, |rows|)
    {
      best := None;
      for i := 0 to |rows|
        invariant best == OldestCritical(rows, i)
      {
        var row := rows[i];
        if row.status == Pending && row.severity == Critical && (best.None? || row.ts < rows[best.value].ts) {
          best := Some(i);
        }
      }
    }

    /** What the connection of a new process sees. */
    method Reopen()
      modifies this
      ensures Abs() == Table(old(disk), old(disk))
    {
      rows := disk;
    }
  }

  /** The end of a lock loop, with the rows locked before it. */
  function After(locked: seq<nat>, end: LockEnd): LockEnd {
    end.(locked := locked + end.locked)
  }

  lemma LockOne(t: Table, ids: seq<nat>, f: Fault, locked: seq<nat>)
    requires |ids| > 0
    ensures var t' := Write(t, Lock(t.rows, ids[0]), f);
            After(locked, LockLoop(t, ids, f)) ==
              if Raises(f) then LockEnd(t', locked, ids)
              else if IsPending(t.rows, ids[0]) then After(locked + [ids[0]], LockLoop(t', ids[1..], Later(f)))
              else After(locked, LockLoop(t', ids[1..], Later(f)))
  {
    var rest := LockLoop(Write(t, Lock(t.rows, ids[0]), f), ids[1..], Later(f)).locked;
    assert locked + ([ids[0]] + rest) == (locked + [ids[0]]) + rest;
    assert [] + rest == rest;
  }

  class AlertAgent {
    const config: Config
    const db: Database
    var run: nat
    var critQ: seq<nat>
    var buffer: seq<Item>
    var dedup: map<Key, Entry>
    var batchStart: Option<int>
    var breaker: Breaker
    var fails: nat
    var tasks: map<nat, InFlight> // coroutines waiting in a send
    ghost var past: Past

    ghost function Mem(): Memory
      reads this
    {
      Memory(run, critQ, buffer, dedup, batchStart, breaker, fails, tasks)
    }

    ghost function Abs(): State
      reads this, db
    {
      State(db.Abs(), Mem(), past)
    }

    constructor (config: Config, db: Database)
      requires db.Abs() == Table([], [])
      ensures this.config == config && this.db == db && Abs() == START
    {
      this.config, this.db := config, db;
      run, critQ, buffer, dedup := 0, [], [], map[];
      batchStart, breaker, fails, tasks := None, Closed, 0, map[];
      past := Past([], {}, {}, {});
    }

    // -------------------------------------------------------------- emit

    /** Inserts a row; an insert that raises is remembered if its statement stays. */
    method InsertEvent(severity: Severity, ts: int, f: Fault) returns (id: nat, raised: bool)
      modifies this`past, db
      ensures Abs() == Insert(old(Abs()), severity, ts, f)
      ensures id == |old(db.rows)| && raised == Raises(f)
    {
      id, raised := db.Insert(severity, ts, run, f);
      if raised && f.stays { past := past.(raisedInserts := past.raisedInserts + {id}); }
    }

    method EmitInfo(ts: int, f: Fault)
      modifies this`past, db
      ensures Abs() == Step(config, old(Abs()), InfoEmitted(ts, f))
    {
      var id, raised := InsertEvent(Info, ts, f);
      if raised { return; }
      raised := db.UpdateStatus(id, Delivered, Later(f));
    }

    method EmitCritical(ts: int, f: Fault)
      modifies this`critQ, this`past, db
      ensures Abs() == Step(config, old(Abs()), CriticalEmitted(ts, f))
    {
      var id, raised := InsertEvent(Critical, ts, f);
      if raised { return; }
      critQ := critQ + [id];
    }

    /** Looks for the buffered warning of the same key; merges into it if it is there. */
    method TryDedupMerge(key: Key, now: int) returns (merged: bool)
      modifies this`buffer, this`dedup
      ensures merged == Merges(config, old(Mem()), key, now)
      ensures Mem() == if merged then Merged(config, old(Mem()), key, now) else old(Mem())
    {
      if key !in dedup { return false; }
      var entry := dedup[key];
      if now - entry.last > config.dedupWindow { return false; }
      var i := 0;
      while i < |buffer|
        invariant i <= |buffer| && Mem() == old(Mem())
        invariant forall k :: 0 <= k < i ==> buffer[k].id != entry.id
      {
        if buffer[i].id == entry.id {
          var count := buffer[i].count;
          buffer := buffer[i := Item(entry.id, count + 1)];
          dedup := dedup[key := Entry(entry.id, now, count + 1)];
          return true;
        }
        i := i + 1;
      }
      merged := false;
    }

    method EmitWarning(ts: int, key: Key, now: int, f: Fault)
      modifies this, db
      ensures Abs() == Step(config, old(Abs()), WarningEmitted(ts, key, now, f))
    {
      var merged := TryDedupMerge(key, now);
      if merged { return; }
      var id, raised := InsertEvent(Warning, ts, f);
      if raised { return; }
      buffer := buffer + [Item(id, 1)];
      dedup := dedup[key := Entry(id, now, 1)];
      if batchStart.None? { batchStart := Some(now); }
    }

    // -------------------------------------------------------------- drain

    /** Locks the rows one by one. A raise ends it; left: the rows from there on. */
    method LockRows(ids: seq<nat>, f: Fault) returns (locked: seq<nat>, left: seq<nat>)
      modifies db
      ensures var end := LockLoop(old(db.Abs()), ids, f);
              db.Abs() == end.table && left == end.left && (left == [] ==> locked == end.locked)
    {
      locked := [];
      var g := f;
      for i := 0 to |ids|
        invariant LockLoop(old(db.Abs()), ids, f) == After(locked, LockLoop(db.Abs(), ids[i..], g))
      {
        assert ids[i..][0] == ids[i] && ids[i..][1..] == ids[i + 1..];
        LockOne(db.Abs(), ids[i..], g, locked);
        var hit, raised := db.OptimisticSending(ids[i], g);
        if raised { return locked, ids[i..]; }
        g := Later(g);
        if hit { locked := locked + [ids[i]]; }
      }
      left := [];
    }

    method FlushWarningBatch(task: nat, now: int, f: Fault)
      requires task !in tasks
      modifies this, db
      ensures Abs() == Flush(config, old(Abs()), task, now, f)
    {
      var n := if config.batchSize < |buffer| then config.batchSize else |buffer|;
      var items := buffer[..n];
      buffer := buffer[n..];
      batchStart := if |buffer| == 0 then None else Some(now);
      var locked, left := LockRows(Ids(items), f);
      past := past.(dropped := past.dropped + Elems(left));
      if |left| > 0 || |locked| == 0 { return; }
      HandOver(task, Batch(locked, items));
    }

    /** Starts a send. */
    method HandOver(task: nat, send: InFlight)
      modifies this`tasks, this`past
      ensures Abs() == Handed(old(Abs()), task, send)
    {
      tasks := tasks[task := send];
      past := past.(sent := past.sent + IdsOf(send));
    }

    /** Pops the queue until a lock succeeds or raises. */
    method PopCritical(f: Fault) returns (found: Option<nat>, raised: Option<nat>, g: Fault)
      modifies this`critQ, db
      ensures PopLoop(old(db.Abs()), old(critQ), f) == PopEnd(db.Abs(), critQ, found, raised, g)
    {
      g := f;
      while |critQ| > 0
        invariant PopLoop(db.Abs(), critQ, g) == PopLoop(old(db.Abs()), old(critQ), f)
        decreases |critQ|
      {
        var id := critQ[0];
        critQ := critQ[1..];
        var hit, failed := db.OptimisticSending(id, g);
        if failed { return None, Some(id), g; }
        g := Later(g);
        if hit { return Some(id), None, g; }
      }
      found, raised := None, None;
    }

    /** The critical loop up to its first send, then the warning flush. A lock that raises ends it. */
    method DrainQueue(task: nat, now: int, f: Fault)
      requires task !in tasks
      modifies this, db
      ensures Abs() == DrainClosed(config, old(Abs()), task, now, f)
    {
      ghost var s0 := Abs();
      var found, raised, g := PopCritical(f);
      past := past.(raisedPops := past.raisedPops + OneOf(raised));
      assert Abs() == Popped(s0, f);
      if raised.Some? { return; }
      if found.Some? {
        HandOver(task, Single(found.value, true));
        return;
      }
      if |buffer| > 0 {
        var ready := |buffer| >= config.batchSize || (batchStart.Some? && now - batchStart.value >= config.batchWindow);
        if ready { FlushWarningBatch(task, now, g); }
      }
    }

    method DrainOnce(task: nat, now: int, f: Fault)
      requires task !in tasks
      modifies this, db
      ensures Abs() == Step(config, old(Abs()), DrainCalled(task, now, f))
    {
      if breaker.Open? {
        if now < breaker.until { return; }
        breaker := HalfOpen;
      }
      if breaker.HalfOpen? {
        Probe(task, f);
        return;
      }
      DrainQueue(task, now, f);
    }

    method Probe(task: nat, f: Fault)
      modifies this`tasks, this`past, db
      ensures Abs() == HalfOpenTest(old(Abs()), task, f)
    {
      var hit := db.Oldest();
      if hit.None? { return; }
      ghost var s0 := Abs();
      var locked, raised := db.OptimisticSending(hit.value, f);
      assert Abs() == Probed(s0, hit.value, f);
      if raised { return; }
      HandOver(task, Single(hit.value, false));
    }

    // -------------------------------------------------------------- the end of a send

    method RecordSuccess()
      modifies this`fails, this`breaker
      ensures Mem() == OnSuccess(old(Mem()))
    {
      fails := 0;
      if !breaker.Closed? { breaker := Closed; }
    }

    method RecordFinalFail(now: int)
      modifies this`fails, this`breaker
      ensures Mem() == OnFinalFail(config, old(Mem()), now)
    {
      fails := fails + 1;
      if breaker.HalfOpen? || fails >= config.failThreshold {
        breaker := Open(now + config.openFor);
      }
    }

    /** Writes the result to the rows one by one, until a write raises. */
    method WriteResults(ids: seq<nat>, status: Status, f: Fault) returns (raised: bool, g: Fault)
      modifies db
      ensures UpdateLoop(old(db.Abs()), ids, status, f) == UpdateEnd(db.Abs(), raised, g)
    {
      g := f;
      for i := 0 to |ids|
        invariant UpdateLoop(db.Abs(), ids[i..], status, g) == UpdateLoop(old(db.Abs()), ids, status, f)
      {
        assert ids[i..][0] == ids[i] && ids[i..][1..] == ids[i + 1..];
        raised := db.UpdateStatus(ids[i], status, g);
        if raised { return; }
        g := Later(g);
      }
      raised := false;
    }

    /** The end of a send: results, breaker, and on with the loop the send came from. */
    method SendEnds(task: nat, ok: bool, now: int, f: Fault)
      requires task in tasks
      modifies this, db
      ensures Abs() == Step(config, old(Abs()), SendEnded(task, ok, now, f))
    {
      ghost var s0 := Abs();
      var send := tasks[task];
      var raised, g := WriteResults(IdsOf(send), if ok then Delivered else Failed, f);
      tasks := tasks - {task};
      assert Abs() == Resulted(s0, task, ok, f);
      if raised { return; }
      if ok { RecordSuccess(); } else { RecordFinalFail(now); }
      assert Abs() == Judged(config, Resulted(s0, task, ok, f), ok, now);
      if send.Single? && send.goesOn { DrainQueue(task, now, g); }
    }

    method Cancel(task: nat)
      modifies this`tasks
      ensures Abs() == Step(config, old(Abs()), Cancelled(task))
    {
      tasks := tasks - {task};
    }

    /** A new process: empty memory, a new connection, and the sweep of overdue pending rows. */
    method Start(cutoff: int, f: Fault)
      modifies this, db
      ensures Abs() == Step(config, old(Abs()), Restarted(cutoff, f))
    {
      db.Reopen();
      var raised := db.Execute(Sweep(db.rows, cutoff), f);
      run := run + 1;
      critQ, buffer, dedup, batchStart, breaker, fails, tasks := [], [], map[], None, Closed, 0, map[];
      past := Past(past.sent, {}, {}, {});
    }
  }
}
