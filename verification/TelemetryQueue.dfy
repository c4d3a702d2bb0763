/** The telemetry queue in threaded mode: a bounded deque filled by the producer, a bridge thread
  that moves items one at a time into a bounded process queue, and a consumer of that queue.

  Every lock section and every queue operation is one step; the steps of the producer, the bridge
  and the consumer interleave freely.
 */
module TelemetryQueue {

  /** puts and consumed are the histories of the two ends; hand is the item the bridge holds
      outside the lock, if any; overcounted counts the put-backs that raised dropped without
      losing an item; swallowed the items that close popped before an exception it ignores. */
  datatype State<T> = State(
    puts: seq<T>, consumed: seq<T>, queue: seq<T>, hand: seq<T>, deque: seq<T>,
    dropped: nat, overcounted: nat, swallowed: nat, phase: Phase)

  /** The bridge runs; close moves what is left; close is over, and nothing enters the process queue. */
  datatype Phase = Running | Flushing | Ended

  /** What becomes of a left-over item: the process queue takes it, is full, or fails otherwise. */
  datatype PutEnd = Accepted | NoRoom | Failed

  datatype Event<T> =
    | Put(x: T)          // producer: append, evicting the oldest when full
    | Take               // bridge: pop the oldest into its hand
    | Forward            // bridge: the item in hand enters the process queue
    | PutBack            // bridge: the process queue stayed full, the item goes back in front
    | Broken             // bridge: the process queue failed, the item is dropped
    | Get                // consumer
    | Close              // stop the bridge, once it holds nothing; or close once more
    | Flush(end: PutEnd) // close: pop one left-over item and put it; or end

  function Start<T>(): State<T> { State([], [], [], [], [], 0, 0, 0, Running) }

  /** Appending at the right end of a deque of at most max items evicts from the left. */
  function AppendRight<T>(d: seq<T>, x: T, max: nat): seq<T> {
    if |d| < max then d + [x] else (d + [x])[|d| + 1 - max..]
  }

  /** Appending at the left end evicts from the right. */
  function AppendLeft<T>(d: seq<T>, x: T, max: nat): seq<T> {
    if |d| < max then [x] + d else ([x] + d)[..max]
  }

  function Step<T>(max: nat, s: State<T>, e: Event<T>): State<T>
    requires |s.deque| <= max
  {
    match e
    case Put(x) =>
      s.(puts := s.puts + [x], deque := AppendRight(s.deque, x, max),
         dropped := s.dropped + if |s.deque| == max then 1 else 0)
    case Take =>
      if |s.deque| > 0 && |s.hand| == 0 && s.phase.Running? then s.(hand := [s.deque[0]], deque := s.deque[1..]) else s
    case Forward =>
      s.(queue := s.queue + s.hand, hand := [])
    case PutBack =>
      if |s.hand| == 0 then s
      else
        var back := AppendLeft(s.deque, s.hand[0], max);
        s.(hand := [], deque := back,
           dropped := s.dropped + if |back| == max then 1 else 0,
           overcounted := s.overcounted + if |back| == max && |s.deque| < max then 1 else 0)
    case Broken =>
      if |s.hand| == 0 then s else s.(hand := [], dropped := s.dropped + 1)
    case Get =>
      if |s.queue| == 0 then s else s.(queue := s.queue[1..], consumed := s.consumed + [s.queue[0]])
    case Close =>
      if |s.hand| == 0 && s.phase.Running? then s.(phase := Flushing)
      else if s.phase.Ended? then Swallow(s)
      else s
    case Flush(end) =>
      if !s.phase.Flushing? || |s.hand| > 0 then s
      else if |s.deque| == 0 then s.(phase := Ended)
      else
        match end
        case Accepted => s.(deque := s.deque[1..], queue := s.queue + [s.deque[0]])
        case NoRoom => s.(deque := s.deque[1..], dropped := s.dropped + 1, phase := Ended)
        case Failed => Swallow(s).(phase := Ended)
  }

  /** An item popped whose put raises is gone, and not counted. A put into a closed queue always does. */
  function Swallow<T>(s: State<T>): State<T> {
    if |s.deque| == 0 then s else s.(deque := s.deque[1..], swallowed := s.swallowed + 1)
  }

  /** Everything still on its way or already delivered, oldest first. */
  function Line<T>(s: State<T>): seq<T> {
    s.consumed + s.queue + s.hand + s.deque
  }

  /** a is b with some elements left out. */
  predicate Subsequence<T(==)>(a: seq<T>, b: seq<T>) {
    if |a| == 0 then true
    else if |b| == 0 then false
    else
      || (a[|a| - 1] == b[|b| - 1] && Subsequence(a[..|a| - 1], b[..|b| - 1]))
      || Subsequence(a, b[..|b| - 1])
  }

  lemma {:induction false} SubsequenceIsNoLonger<T>(a: seq<T>, b: seq<T>)
    requires Subsequence(a, b)
    ensures |a| <= |b|
  {
    if |a| > 0 {
      if Subsequence(a, b[..|b| - 1]) {
        SubsequenceIsNoLonger(a, b[..|b| - 1]);
      } else {
        SubsequenceIsNoLonger(a[..|a| - 1], b[..|b| - 1]);
      }
    }
  }

  lemma AppendBoth<T>(a: seq<T>, b: seq<T>, x: T)
    requires Subsequence(a, b)
    ensures Subsequence(a + [x], b + [x])
  {
    assert (a + [x])[..|a|] == a && (b + [x])[..|b|] == b;
  }

  /** Leaving one more element out. */
  lemma {:induction false} LeaveOut<T>(pre: seq<T>, x: T, post: seq<T>, b: seq<T>)
    requires Subsequence(pre + [x] + post, b)
    ensures Subsequence(pre + post, b)
    decreases |b|
  {
    var a := pre + [x] + post;
    var n := |b| - 1;
    if a[|a| - 1] == b[n] && Subsequence(a[..|a| - 1], b[..n]) {
      if |post| == 0 {
        assert a[..|a| - 1] == pre + post;
        assert Subsequence(pre + post, b[..n]);
      } else {
        var k := |post| - 1;
        assert a[..|a| - 1] == pre + [x] + post[..k];
        LeaveOut(pre, x, post[..k], b[..n]);
        assert (pre + post)[..|pre + post| - 1] == pre + post[..k];
      }
    } else {
      LeaveOut(pre, x, post, b[..n]);
    }
  }

  // ---------------------------------------------------------------- who is evicted

  /** A put into a full deque evicts the oldest item, and one that is put back the newest. */
  lemma EvictsAtTheOtherEnd<T>(max: nat, s: State<T>, x: T)
    requires 0 < |s.deque| <= max
    ensures Step(max, s, Put(x)).deque == (if |s.deque| < max then s.deque else s.deque[1..]) + [x]
    ensures |s.hand| == 1 ==>
              Step(max, s, PutBack).deque == s.hand + if |s.deque| < max then s.deque else s.deque[..max - 1]
  {
    assert (s.deque + [x])[1..] == s.deque[1..] + [x];
    if |s.hand| == 1 {
      assert s.hand == [s.hand[0]];
      if |s.deque| == max { assert ([s.hand[0]] + s.deque)[..max] == [s.hand[0]] + s.deque[..max - 1]; }
    }
  }

  /** The bridge takes the oldest item and forwards it behind the others; the consumer gets the first. */
  lemma ItemsMoveInOrder<T>(max: nat, s: State<T>)
    requires |s.deque| <= max
    ensures |s.deque| > 0 && |s.hand| == 0 && s.phase.Running? ==>
              var s' := Step(max, s, Take); s'.hand + s'.deque == s.deque && |s'.hand| == 1
    ensures var s' := Step(max, s, Forward); s'.queue == s.queue + s.hand && s'.hand == []
    ensures |s.queue| > 0 ==>
              var s' := Step(max, s, Get);
              s'.queue == s.queue[1..] && s'.consumed == s.consumed + [s.queue[0]] && s'.deque == s.deque
  {
  }

  // ---------------------------------------------------------------- safety over every run

  ghost predicate Inv<T>(max: nat, s: State<T>) {
    && |s.deque| <= max && |s.hand| <= 1
    && (|s.hand| > 0 ==> max > 0 && s.phase.Running?)
    && s.overcounted <= s.dropped && (s.swallowed > 0 ==> s.phase.Ended?)
    && |s.puts| == |Line(s)| + s.dropped - s.overcounted + s.swallowed
    && Subsequence(Line(s), s.puts)
  }

  lemma PutKeepsInv<T>(max: nat, s: State<T>, x: T)
    requires Inv(max, s)
    ensures Inv(max, Step(max, s, Put(x)))
  {
    var s' := Step(max, s, Put(x));
    AppendBoth(Line(s), s.puts, x);
    assert Line(s) + [x] == s.consumed + s.queue + s.hand + (s.deque + [x]);
    var pre := s.consumed + s.queue + s.hand;
    if |s.deque| == max {
      var all := s.deque + [x];
      assert all == [all[0]] + all[1..] && s'.deque == all[1..];
      assert Line(s) + [x] == pre + [all[0]] + all[1..];
      LeaveOut(pre, all[0], all[1..], s'.puts);
    }
  }

  lemma PutBackKeepsInv<T>(max: nat, s: State<T>)
    requires Inv(max, s) && |s.hand| == 1
    ensures Inv(max, Step(max, s, PutBack))
  {
    var s' := Step(max, s, PutBack);
    var all := s.hand + s.deque;
    assert all == [s.hand[0]] + s.deque;
    var pre := s.consumed + s.queue;
    assert Line(s) == pre + all;
    if |s.deque| == max {
      assert all == all[..max] + [all[max]] + [] && s'.deque == all[..max];
      assert Line(s) == (pre + all[..max]) + [all[max]] + [];
      LeaveOut(pre + all[..max], all[max], [], s.puts);
      assert Line(s') == pre + all[..max] + [];
    } else {
      assert Line(s') == Line(s);
    }
  }

  /** The oldest item that the process queue does not have is dropped. */
  lemma OldestDropped<T>(pre: seq<T>, all: seq<T>, puts: seq<T>)
    requires |all| > 0 && Subsequence(pre + all, puts)
    ensures Subsequence(pre + all[1..], puts)
  {
    assert pre + all == pre + [all[0]] + all[1..];
    LeaveOut(pre, all[0], all[1..], puts);
  }

  lemma BrokenKeepsInv<T>(max: nat, s: State<T>)
    requires Inv(max, s) && |s.hand| > 0
    ensures Inv(max, Step(max, s, Broken))
  {
    var pre, all := s.consumed + s.queue, s.hand + s.deque;
    assert Line(s) == pre + all && all[1..] == s.deque;
    OldestDropped(pre, all, s.puts);
    assert Line(Step(max, s, Broken)) == pre + all[1..];
  }

  lemma FlushKeepsInv<T>(max: nat, s: State<T>, end: PutEnd)
    requires Inv(max, s) && s.phase.Flushing? && |s.deque| > 0
    ensures Inv(max, Step(max, s, Flush(end)))
  {
    if end.Accepted? { FlushedStays(max, s); } else { FrontLeaves(s, Step(max, s, Flush(end))); }
  }

  /** The front of the deque leaves for nowhere. */
  lemma FrontLeaves<T>(s: State<T>, s': State<T>)
    requires |s.deque| > 0 && s.hand == [] && Subsequence(Line(s), s.puts)
    requires s' == s.(deque := s.deque[1..], dropped := s'.dropped, swallowed := s'.swallowed, phase := s'.phase)
    ensures Subsequence(Line(s'), s'.puts) && |Line(s')| == |Line(s)| - 1
  {
    var pre := s.consumed + s.queue;
    assert Line(s) == pre + s.deque;
    OldestDropped(pre, s.deque, s.puts);
    assert Line(s') == pre + s.deque[1..];
  }

  lemma CloseKeepsInv<T>(max: nat, s: State<T>)
    requires Inv(max, s)
    ensures Inv(max, Step(max, s, Close))
  {
    if s.phase.Ended? && |s.deque| > 0 { FrontLeaves(s, Swallow(s)); }
  }

  lemma FlushedStays<T>(max: nat, s: State<T>)
    requires |s.deque| <= max && s.phase.Flushing? && |s.deque| > 0 && s.hand == []
    ensures Line(Step(max, s, Flush(Accepted))) == Line(s)
  {
    assert s.deque == [s.deque[0]] + s.deque[1..];
  }

  lemma StepKeepsInv<T>(max: nat, s: State<T>, e: Event<T>)
    requires Inv(max, s)
    ensures Inv(max, Step(max, s, e))
  {
    match e
    case Put(x) => PutKeepsInv(max, s, x);
    case PutBack => if |s.hand| == 1 { PutBackKeepsInv(max, s); }
    case Broken => if |s.hand| > 0 { BrokenKeepsInv(max, s); }
    case Flush(end) => if s.phase.Flushing? && |s.deque| > 0 { FlushKeepsInv(max, s, end); }
    case Close => CloseKeepsInv(max, s);
    case _ => OthersKeepLine(max, s, e);
  }

  /** Taking, forwarding and consuming move an item along the line. */
  lemma OthersKeepLine<T>(max: nat, s: State<T>, e: Event<T>)
    requires Inv(max, s) && (e.Take? || e.Forward? || e.Get?)
    ensures Line(Step(max, s, e)) == Line(s)
  {
  }

  ghost predicate IsRun<T>(max: nat, es: seq<Event<T>>, states: seq<State<T>>) {
    && |states| == |es| + 1 && states[0] == Start()
    && forall i :: 0 <= i < |es| ==> |states[i].deque| <= max && states[i + 1] == Step(max, states[i], es[i])
  }

  lemma {:induction false} RunKeepsInv<T>(max: nat, es: seq<Event<T>>, states: seq<State<T>>, i: nat)
    requires IsRun(max, es, states) && i <= |es|
    ensures Inv(max, states[i])
  {
    if i > 0 {
      RunKeepsInv(max, es, states, i - 1);
      StepKeepsInv(max, states[i - 1], es[i - 1]);
    }
  }

  /** Over every interleaving: what was consumed followed by what is on its way is a subsequence of
      the puts, so nothing is duplicated or reordered; and the items missing from it number exactly
      the drop counter less its over-counts, so until close is over never more than the counter, and
      from then on those that close swallowed besides. */
  lemma NothingLostUncounted<T>(max: nat, es: seq<Event<T>>, states: seq<State<T>>)
    requires IsRun(max, es, states)
    ensures var s := states[|es|];
            && Subsequence(Line(s), s.puts)
            && 0 <= |s.puts| - |Line(s)| == s.dropped - s.overcounted + s.swallowed
            && (!s.phase.Ended? ==> |s.puts| - |Line(s)| <= s.dropped)
  {
    RunKeepsInv(max, es, states, |es|);
    SubsequenceIsNoLonger(Line(states[|es|]), states[|es|].puts);
  }

  /** What the consumer has, or can still get. */
  function Reached<T>(s: State<T>): seq<T> { s.consumed + s.queue }

  lemma EndedStep<T>(max: nat, s: State<T>, e: Event<T>)
    requires Inv(max, s) && s.phase.Ended?
    ensures Step(max, s, e).phase.Ended? && Reached(Step(max, s, e)) == Reached(s)
  {
    if e.Get? && |s.queue| > 0 { assert s.queue == [s.queue[0]] + s.queue[1..]; }
  }

  /** After close nothing more ever reaches the consumer. */
  lemma {:induction false} EndedStays<T>(max: nat, es: seq<Event<T>>, states: seq<State<T>>, i: nat, j: nat)
    requires IsRun(max, es, states) && i <= j <= |es| && states[i].phase.Ended?
    ensures states[j].phase.Ended? && Reached(states[j]) == Reached(states[i])
    decreases j
  {
    if i < j {
      EndedStays(max, es, states, i, j - 1);
      RunKeepsInv(max, es, states, j - 1);
      EndedStep(max, states[j - 1], es[j - 1]);
    }
  }

  /** Once close is over, the items lost are those dropped, less the over-counts, those that close
      swallowed, and those it left in the deque, which nobody counts; so the counter covers the losses
      exactly if the latter two are no more than were over-counted. */
  lemma LossesAfterClose<T>(max: nat, es: seq<Event<T>>, states: seq<State<T>>)
    requires IsRun(max, es, states) && states[|es|].phase.Ended?
    ensures var s := states[|es|];
            && |s.puts| - |Reached(s)| == s.dropped - s.overcounted + s.swallowed + |s.deque|
            && (|s.puts| - |Reached(s)| <= s.dropped <==> s.swallowed + |s.deque| <= s.overcounted)
  {
    RunKeepsInv(max, es, states, |es|);
  }

  /** Two items and a full process queue: close drops and counts one, and the other is lost uncounted. */
  lemma CloseCanLoseUncounted()
    ensures var s := Step(2, Step(2, Step(2, Step(2, Start(), Put(1)), Put(2)), Close), Flush(NoRoom));
            s.phase.Ended? && s.puts == [1, 2] && Reached(s) == [] && s.dropped == 1 && s.deque == [2]
  {
    var s2 := Step(2, Step(2, Start<int>(), Put(1)), Put(2));
    assert s2.deque == [1, 2] && s2.puts == [1, 2];
    assert [1, 2][1..] == [2];
  }

  /** One item and a process queue that fails: close loses it, the deque is empty and the counter zero. */
  lemma CloseCanSwallow()
    ensures var s := Step(2, Step(2, Step(2, Start(), Put(1)), Close), Flush(Failed));
            s.phase.Ended? && s.puts == [1] && Reached(s) == [] && s.deque == [] && s.dropped == 0
  {
    var s1 := Step(2, Start<int>(), Put(1));
    assert s1.deque == [1] && s1.puts == [1];
  }

  /** The counter can exceed the losses: a put-back that refills the deque to its limit counts an
      item that was not lost. */
  lemma PutBackCanOvercount()
    ensures var s := Step(2, Step(2, Step(2, Step(2, Start(), Put(1)), Take), Put(2)), PutBack);
            s.dropped == 1 && Line(s) == s.puts == [1, 2]
  {
    var s1 := Step(2, Start<int>(), Put(1));
    assert s1.deque == [1];
    var s2 := Step(2, s1, Take);
    assert s2.deque == [] && s2.hand == [1];
    var s3 := Step(2, s2, Put(2));
    assert s3.deque == [2] && s3.puts == [1, 2];
    assert AppendLeft(s3.deque, 1, 2) == [1, 2];
  }

  // ---------------------------------------------------------------- the queue object

  class AsyncTelemetryQueue<T> {
    const maxsize: nat
    var q: seq<T>
    var deque: seq<T>
    var hand: seq<T>
    var dropped: nat
    var phase: Phase
    ghost var puts: seq<T>
    ghost var consumed: seq<T>
    ghost var overcounted: nat
    ghost var swallowed: nat

    ghost function Abs(): State<T>
      reads this
    {
      State(puts, consumed, q, hand, deque, dropped, overcounted, swallowed, phase)
    }

    constructor (maxsize: nat)
      ensures Abs() == Start() && this.maxsize == maxsize
    {
      this.maxsize := maxsize;
      q, deque, hand, dropped, phase := [], [], [], 0, Running;
      puts, consumed, overcounted, swallowed := [], [], 0, 0;
    }

    method PutNowait(x: T)
      requires |deque| <= maxsize
      modifies this
      ensures Abs() == Step(maxsize, old(Abs()), Put(x))
    {
      var full := |deque| == maxsize;
      deque := AppendRight(deque, x, maxsize);
      if full { dropped := dropped + 1; }
      puts := puts + [x];
    }

    /** One round of the bridge up to its blocking put. */
    method BridgeTake()
      requires |deque| <= maxsize && |hand| == 0
      modifies this`deque, this`hand
      ensures Abs() == Step(maxsize, old(Abs()), Take)
    {
      if phase.Running? && |deque| > 0 {
        hand := [deque[0]];
        deque := deque[1..];
      }
    }

    /** The outcome of that put: accepted, timed out on a full queue, or failed. */
    method BridgePut(accepted: bool, full: bool)
      requires |deque| <= maxsize && |hand| == 1
      modifies this
      ensures Abs() == Step(maxsize, old(Abs()), if accepted then Forward else if full then PutBack else Broken)
    {
      var item := hand[0];
      if accepted {
        q := q + [item];
      } else if full {
        if |deque| < maxsize && |deque| + 1 == maxsize { overcounted := overcounted + 1; }
        deque := AppendLeft(deque, item, maxsize);
        if |deque| == maxsize { dropped := dropped + 1; }
      } else {
        dropped := dropped + 1;
      }
      hand := [];
    }

    method GetNowait() returns (item: seq<T>)
      requires |deque| <= maxsize
      modifies this`q, this`consumed
      ensures Abs() == Step(maxsize, old(Abs()), Get)
      ensures item == if |old(q)| == 0 then [] else [old(q)[0]]
    {
      if |q| == 0 { return []; }
      item := [q[0]];
      q := q[1..];
      consumed := consumed + item;
    }

    method StopBridge()
      requires |deque| <= maxsize && |hand| == 0 && phase.Running?
      modifies this`phase
      ensures Abs() == Step(maxsize, old(Abs()), Close)
    {
      phase := Flushing;
    }

    /** One turn of close's loop: a left-over item is moved, or dropped when the process queue has no
        room, or lost to another exception; both end the loop, and so does an empty deque. */
    method FlushOne(end: PutEnd)
      requires |deque| <= maxsize && |hand| == 0 && phase.Flushing?
      modifies this`q, this`deque, this`dropped, this`phase, this`swallowed
      ensures Abs() == Step(maxsize, old(Abs()), Flush(end))
    {
      if |deque| == 0 {
        phase := Ended;
        return;
      }
      var item := deque[0];
      deque := deque[1..];
      if end.Accepted? {
        q := q + [item];
        return;
      }
      if end.NoRoom? { dropped := dropped + 1; } else { swallowed := swallowed + 1; }
      phase := Ended;
    }

    /** Closing a closed queue: the put of the first item left raises, and ends the loop. */
    method CloseAgain()
      requires |deque| <= maxsize && phase.Ended?
      modifies this`deque, this`swallowed
      ensures Abs() == Step(maxsize, old(Abs()), Close)
    {
      if |deque| == 0 { return; }
      deque := deque[1..];
      swallowed := swallowed + 1;
    }

    /** The rest of close: moves left-over items until none is left or the process queue, after room of
        them, refuses one; that item is dropped or swallowed, and those behind it stay. */
    method FlushAll(room: nat, refusal: PutEnd)
      requires |deque| <= maxsize && |hand| == 0 && phase.Flushing? && !refusal.Accepted?
      modifies this`q, this`deque, this`dropped, this`phase, this`swallowed
      ensures phase.Ended?
      ensures |deque| == if |old(deque)| <= room then 0 else |old(deque)| - room - 1
      ensures q + deque == if |old(deque)| <= room then old(q + deque)
                           else old(q + deque[..room] + deque[room + 1..])
      ensures dropped == old(dropped) + Refused(old(deque), room, refusal, NoRoom)
      ensures swallowed == old(swallowed) + Refused(old(deque), room, refusal, Failed)
    {
      var moved := 0;
      while phase.Flushing?
        invariant 0 <= moved <= room && moved <= |old(deque)| && |deque| <= maxsize && |hand| == 0
        invariant phase.Flushing? ==> Moved(old(q), old(deque), q, deque, moved)
        invariant phase.Flushing? ==> dropped == old(dropped) && swallowed == old(swallowed)
        invariant !phase.Flushing? ==> phase.Ended? && Flushed(old(q), old(deque), q, deque, room)
        invariant !phase.Flushing? ==> dropped == old(dropped) + Refused(old(deque), room, refusal, NoRoom)
        invariant !phase.Flushing? ==> swallowed == old(swallowed) + Refused(old(deque), room, refusal, Failed)
        decreases |deque|, phase.Flushing?
      {
        if |deque| == 0 { assert moved == |old(deque)| && old(deque)[..moved] == old(deque); }
        FlushOne(if moved == room then refusal else Accepted);
        if phase.Flushing? { moved := moved + 1; }
      }
    }
  }

  /** One if the items run into a refusal of this kind. */
  function Refused<T>(deque: seq<T>, room: nat, refusal: PutEnd, kind: PutEnd): nat {
    if |deque| > room && refusal == kind then 1 else 0
  }

  /** The first n left-over items have been moved. */
  ghost predicate Moved<T>(q: seq<T>, deque: seq<T>, q': seq<T>, deque': seq<T>, n: nat) {
    n <= |deque| && q' == q + deque[..n] && deque' == deque[n..]
  }

  ghost predicate Flushed<T>(q: seq<T>, deque: seq<T>, q': seq<T>, deque': seq<T>, room: nat) {
    if |deque| <= room then q' == q + deque && deque' == []
    else q' == q + deque[..room] && deque' == deque[room + 1..]
  }
}
