/** When alerts are sent, merged and given up: what a step without a raise does to queue, buffer and
  breaker, in terms of the state before it.
 */
module AlertSending {
  import opened Basics
  import opened AlertSpec
  import opened AlertTable
  import opened AlertRuns
  import opened AlertGuarantees

  // ---------------------------------------------------------------- warnings

  lemma {:induction false} LocksAll(t: Table, ids: seq<nat>)
    requires AllPending(t.rows, ids) && AllDistinct(ids)
    ensures LockLoop(t, ids, NoFault).locked == ids && LockLoop(t, ids, NoFault).left == []
    decreases |ids|
  {
    if |ids| > 0 {
      var t' := Write(t, Lock(t.rows, ids[0]), NoFault);
      assert IsPending(t.rows, ids[0]);
      forall k | 0 <= k < |ids[1..]| ensures IsPending(t'.rows, ids[1..][k]) {
        assert IsPending(t.rows, ids[k + 1]) && ids[0] != ids[k + 1];
      }
      LocksAll(t', ids[1..]);
      assert [ids[0]] + ids[1..] == ids;
    }
  }

  /** The buffer is full, or its oldest batch has waited long enough. */
  predicate IsDue(c: Config, m: Memory, now: int) {
    || |m.buffer| >= c.batchSize
    || (|m.buffer| > 0 && m.batchStart.Some? && m.batchStart.value + c.batchWindow <= now)
  }

  /** The task sends exactly these items, and the buffer keeps the rest, which waits anew. */
  ghost predicate SendsItems(s: State, s': State, task: nat, now: int, items: seq<Item>) {
    && s.mem.buffer == items + s'.mem.buffer
    && s'.mem.batchStart == (if |s'.mem.buffer| == 0 then None else Some(now))
    && s'.mem.tasks == s.mem.tasks[task := Batch(Ids(items), items)]
    && s'.past.sent == s.past.sent + Ids(items)
  }

  ghost predicate SendsNothing(s: State, s': State) {
    s'.mem.buffer == s.mem.buffer && s'.mem.tasks == s.mem.tasks && s'.past.sent == s.past.sent
  }

  /** A drain under a closed breaker with no critical alert queued sends the oldest batchSize warnings, or
      all if there are fewer, exactly when the buffer is full or has waited for the window. */
  lemma WarningsAreSentWhenDue(c: Config, es: seq<Event>, task: nat, now: int) returns (items: seq<Item>)
    requires var m := Run(c, es).mem; m.breaker.Closed? && m.critQ == [] && task !in m.tasks
    ensures var s, s' := Run(c, es), Step(c, Run(c, es), DrainCalled(task, now, NoFault));
            if IsDue(c, s.mem, now) && |s.mem.buffer| > 0 && c.batchSize > 0
            then |items| == (if |s.mem.buffer| < c.batchSize then |s.mem.buffer| else c.batchSize)
                 && SendsItems(s, s', task, now, items)
            else SendsNothing(s, s')
  {
    RunKeepsInv(c, es);
    var s := Run(c, es);
    OnlyWarningsDrain(c, s, task, now);
    items := BatchIsSent(c, s, task, now);
  }

  lemma OnlyWarningsDrain(c: Config, s: State, task: nat, now: int)
    requires s.mem.breaker.Closed? && s.mem.critQ == [] && task !in s.mem.tasks
    ensures Step(c, s, DrainCalled(task, now, NoFault)) ==
            if IsDue(c, s.mem, now) && |s.mem.buffer| > 0 then Flush(c, s, task, now, NoFault) else s
  {
    assert s.past.raisedPops + {} == s.past.raisedPops;
    assert Popped(s, NoFault) == s;
  }

  lemma BatchIsSent(c: Config, s: State, task: nat, now: int) returns (items: seq<Item>)
    requires Inv(s)
    ensures |items| == if |s.mem.buffer| < c.batchSize then |s.mem.buffer| else c.batchSize
    ensures var s' := Flush(c, s, task, now, NoFault);
            if |items| > 0 then SendsItems(s, s', task, now, items) else SendsNothing(s, s')
  {
    items := s.mem.buffer[..BatchLength(c, s.mem)];
    WarningsAreLocked(s, items);
    assert s.mem.buffer == items + s.mem.buffer[|items|..];
  }

  lemma WarningsAreLocked(s: State, items: seq<Item>)
    requires Inv(s) && items <= s.mem.buffer
    ensures LockLoop(s.table, Ids(items), NoFault).locked == Ids(items)
    ensures LockLoop(s.table, Ids(items), NoFault).left == []
  {
    var all, ids := Ids(s.mem.buffer), Ids(items);
    forall k | 0 <= k < |ids| ensures IsPending(s.table.rows, ids[k]) {
      assert ids[k] == all[k] && IsPending(s.table.rows, all[k]);
    }
    forall j, k | 0 <= j < k < |ids| ensures ids[j] != ids[k] { assert ids[j] == all[j] && ids[k] == all[k]; }
    LocksAll(s.table, ids);
  }

  /** A warning is merged, and makes no row, exactly if its key was seen within the window and that warning
      is still buffered. */
  lemma WarningsMergeExactly(c: Config, s: State, ts: int, key: Key, now: int)
    ensures var s', m := Step(c, s, WarningEmitted(ts, key, now, NoFault)), s.mem;
            if key in m.dedup && now - m.dedup[key].last <= c.dedupWindow && HasItem(m.buffer, m.dedup[key].id)
            then s'.table == s.table && CountsOneMore(m, s'.mem, key, now)
            else
              && s'.table.rows == s.table.rows + [Row(Warning, ts, Pending, m.run)] == s'.table.disk
              && s'.mem.buffer == m.buffer + [Item(|s.table.rows|, 1)]
              && s'.mem.dedup == m.dedup[key := Entry(|s.table.rows|, now, 1)]
              && s'.mem.batchStart == if m.batchStart.None? then Some(now) else m.batchStart
  {
    if key in s.mem.dedup && HasItem(s.mem.buffer, s.mem.dedup[key].id) {
      assert IndexOf(s.mem.buffer, s.mem.dedup[key].id) < |s.mem.buffer|;
    }
  }

  ghost predicate HasItem(buffer: seq<Item>, id: nat) {
    exists k :: 0 <= k < |buffer| && buffer[k].id == id
  }

  /** The first buffered warning of the key counts one more, and the key is seen now. */
  ghost predicate CountsOneMore(m: Memory, m': Memory, key: Key, now: int)
    requires key in m.dedup
  {
    exists k {:trigger m.buffer[k]} :: 0 <= k < |m.buffer| && m.buffer[k].id == m.dedup[key].id
      && m'.buffer == m.buffer[k := Item(m.buffer[k].id, m.buffer[k].count + 1)]
      && m'.dedup == m.dedup[key := Entry(m.dedup[key].id, now, m.buffer[k].count + 1)]
      && m'.batchStart == m.batchStart
  }

  // ---------------------------------------------------------------- critical and information alerts

  lemma {:induction false} PopTakesTheFirst(t: Table, queue: seq<nat>) returns (k: nat)
    ensures k <= |queue| && forall j :: 0 <= j < k ==> !IsPending(t.rows, queue[j])
    ensures var end := PopLoop(t, queue, NoFault);
            if k == |queue| then end.found == None && end.rest == []
            else IsPending(t.rows, queue[k]) && end.found == Some(queue[k]) && end.rest == queue[k + 1..]
    decreases |queue|
  {
    k := 0;
    if |queue| > 0 && !IsPending(t.rows, queue[0]) {
      var t' := Write(t, Lock(t.rows, queue[0]), NoFault);
      assert t'.rows == t.rows;
      var rest := PopTakesTheFirst(t', queue[1..]);
      k := rest + 1;
      forall j | 0 <= j < k ensures !IsPending(t.rows, queue[j]) {
        if j > 0 { assert queue[j] == queue[1..][j - 1]; }
      }
    }
  }

  /** A drain under a closed breaker sends the critical alert that has been queued longest of those still
      pending, and nothing else. */
  lemma CriticalsAreSentInOrder(c: Config, s: State, task: nat, now: int) returns (k: nat)
    requires s.mem.breaker.Closed? && task !in s.mem.tasks
    ensures k <= |s.mem.critQ| && forall j :: 0 <= j < k ==> !IsPending(s.table.rows, s.mem.critQ[j])
    ensures var s' := Step(c, s, DrainCalled(task, now, NoFault));
            if k == |s.mem.critQ| then s'.mem.critQ == []
            else
              && IsPending(s.table.rows, s.mem.critQ[k]) && s'.mem.critQ == s.mem.critQ[k + 1..]
              && s'.mem.tasks == s.mem.tasks[task := Single(s.mem.critQ[k], true)]
              && s'.mem.buffer == s.mem.buffer && s'.past.sent == s.past.sent + [s.mem.critQ[k]]
  {
    k := PopTakesTheFirst(s.table, s.mem.critQ);
    QuietPop(s.table, s.mem.critQ);
  }

  /** What an emitted alert leaves in the table, committed: an information alert is delivered at once, a
      critical one waits in the queue. */
  lemma EmittedRows(c: Config, s: State, ts: int)
    ensures var s' := Step(c, s, InfoEmitted(ts, NoFault));
            && s'.table.rows == s.table.rows + [Row(Info, ts, Delivered, s.mem.run)] == s'.table.disk
            && s'.mem == s.mem
    ensures var s' := Step(c, s, CriticalEmitted(ts, NoFault));
            && s'.table.rows == s.table.rows + [Row(Critical, ts, Pending, s.mem.run)] == s'.table.disk
            && s'.mem == s.mem.(critQ := s.mem.critQ + [|s.table.rows|])
  {
    var row := Row(Info, ts, Pending, s.mem.run);
    assert (s.table.rows + [row])[|s.table.rows| := row.(status := Delivered)] ==
           s.table.rows + [row.(status := Delivered)];
  }

  // ---------------------------------------------------------------- the breaker, and the sweep

  lemma DrainLeavesBreaker(c: Config, s: State, task: nat, now: int, f: Fault)
    ensures var s' := DrainClosed(c, s, task, now, f); s'.mem.breaker == s.mem.breaker && s'.mem.fails == s.mem.fails
  {
  }

  /** A success closes the breaker and forgets the failures; a failure opens it for openFor if it was
      half-open or is the failThreshold-th since, and is counted. */
  lemma BreakerFollowsResults(c: Config, s: State, task: nat, ok: bool, now: int)
    requires task in s.mem.tasks
    ensures var m, m' := s.mem, Step(c, s, SendEnded(task, ok, now, NoFault)).mem;
            if ok then m'.breaker == Closed && m'.fails == 0
            else
              && m'.fails == m.fails + 1
              && m'.breaker == if m.breaker.HalfOpen? || m.fails + 1 >= c.failThreshold
                               then Open(now + c.openFor) else m.breaker
  {
    QuietResults(s.table, IdsOf(s.mem.tasks[task]), if ok then Delivered else Failed);
    DrainLeavesBreaker(c, Judged(c, Resulted(s, task, ok, NoFault), ok, now), task, now, NoFault);
  }

  lemma {:induction false} ResultsStand(t: Table, ids: seq<nat>, status: Status, id: nat)
    requires id < |t.rows|
    ensures var t' := UpdateLoop(t, ids, status, NoFault).table;
            && |t'.rows| == |t.rows| && (|ids| > 0 ==> t'.disk == t'.rows)
            && t'.rows[id] == if id in ids then t.rows[id].(status := status) else t.rows[id]
    decreases |ids|
  {
    if |ids| > 0 { ResultsStand(Write(t, SetStatus(t.rows, ids[0], status), NoFault), ids[1..], status, id); }
  }

  /** The result of a send stands on each of its rows, as delivered or failed. */
  lemma ResultsAreWritten(c: Config, s: State, task: nat, ok: bool, now: int, id: nat)
    requires task in s.mem.tasks && s.mem.tasks[task].Batch? && id in IdsOf(s.mem.tasks[task]) && id < |s.table.rows|
    ensures var t := Step(c, s, SendEnded(task, ok, now, NoFault)).table;
            id < |t.rows| && t.rows[id] == s.table.rows[id].(status := if ok then Delivered else Failed)
  {
    ResultsStand(s.table, IdsOf(s.mem.tasks[task]), if ok then Delivered else Failed, id);
  }

  /** An open breaker lets nothing happen before its time, and is half-open from then on. */
  lemma OpenBreakerWaits(c: Config, s: State, task: nat, now: int, f: Fault)
    requires s.mem.breaker.Open? && task !in s.mem.tasks
    ensures var s' := Step(c, s, DrainCalled(task, now, f));
            if now < s.mem.breaker.until then s' == s else s'.mem.breaker == HalfOpen
  {
  }

  /** A start expires exactly the pending rows older than the cutoff, and leaves every other row. */
  lemma StartExpiresOldRows(c: Config, s: State, cutoff: int, i: nat)
    requires i < |s.table.disk|
    ensures var t, row := Step(c, s, Restarted(cutoff, NoFault)).table, s.table.disk[i];
            && t.rows == t.disk && |t.rows| == |s.table.disk|
            && t.rows[i] == if row.status == Pending && row.ts < cutoff then row.(status := Expired) else row
  {
  }
}
