/** The pacer: a priority heap with aging and a minimum spacing per priority class.

  Enqueues and pop turns are lock sections and interleave freely. A pop turn takes the least item;
  it goes back with a better priority if it has aged, goes back as it is if its class dispatched too
  recently, and is dispatched otherwise. Nothing is assumed of the clock readings.
 */
module Pacer {

  datatype Item<P> = Item(basePrio: nat, seqNo: nat, enqueueTs: real, payload: P)

  /** Spacing in seconds per class, and the size at which a CRITICAL enqueue is refused. */
  datatype Config = Config(spacing: seq<real>, criticalMaxsize: nat)

  ghost predicate ValidConfig(c: Config) {
    |c.spacing| == 3 && forall i :: 0 <= i < 3 ==> c.spacing[i] >= 0.0
  }

  predicate Less<P>(a: Item<P>, b: Item<P>) {
    a.basePrio < b.basePrio || (a.basePrio == b.basePrio && a.seqNo < b.seqNo)
  }

  /** The heap as the order it is popped in. */
  function Push<P>(heap: seq<Item<P>>, x: Item<P>): seq<Item<P>> {
    if |heap| == 0 || Less(x, heap[0]) then [x] + heap else [heap[0]] + Push(heap[1..], x)
  }

  function Effective<P>(x: Item<P>, wall: real): nat {
    var age := (wall - x.enqueueTs).Floor;
    var bonus := if age < 0 then 0 else age;
    var prio := if x.basePrio - bonus < 2 then x.basePrio - bonus else 2;
    if prio < 0 then 0 else prio
  }

  datatype Dispatch<P> = Dispatch(mono: real, prio: nat, payload: P)

  /** enqueued and dispatched are histories; promotions counts the aged items pushed back. */
  datatype State<P> = State(
    heap: seq<Item<P>>, nextSeq: nat, lastDispatch: seq<real>,
    enqueued: seq<P>, enqueuedPrio: nat, dispatched: seq<Dispatch<P>>, promotions: nat)

  datatype Event<P> = Enqueue(prio: nat, payload: P, ts: real) | PopTurn(wall: real, mono: real)

  function Start<P>(): State<P> { State([], 0, [0.0, 0.0, 0.0], [], 0, [], 0) }

  predicate Refuses<P>(c: Config, s: State<P>, prio: nat) {
    prio > 2 || (prio == 0 && |s.heap| >= c.criticalMaxsize)
  }

  /** The head is due a dispatch: no promotion is due and its class has been quiet long enough. */
  predicate Due<P>(c: Config, s: State<P>, wall: real, mono: real)
    requires |s.heap| > 0
  {
    var x := s.heap[0];
    && Effective(x, wall) >= x.basePrio
    && x.basePrio < |s.lastDispatch| && x.basePrio < |c.spacing|
    && mono - s.lastDispatch[x.basePrio] >= c.spacing[x.basePrio]
  }

  function Step<P>(c: Config, s: State<P>, e: Event<P>): State<P> {
    match e
    case Enqueue(prio, payload, ts) =>
      if Refuses(c, s, prio) then s
      else s.(heap := Push(s.heap, Item(prio, s.nextSeq, ts, payload)), nextSeq := s.nextSeq + 1,
              enqueued := s.enqueued + [payload], enqueuedPrio := s.enqueuedPrio + prio)
    case PopTurn(wall, mono) =>
      if |s.heap| == 0 then s
      else
        var x, rest := s.heap[0], s.heap[1..];
        if Effective(x, wall) < x.basePrio then
          s.(heap := Push(rest, x.(basePrio := Effective(x, wall))), promotions := s.promotions + 1)
        else if !Due(c, s, wall, mono) then s.(heap := Push(rest, x))
        else s.(heap := rest, lastDispatch := s.lastDispatch[x.basePrio := mono],
                dispatched := s.dispatched + [Dispatch(mono, x.basePrio, x.payload)])
  }

  function Run<P>(c: Config, es: seq<Event<P>>): State<P> {
    if |es| == 0 then Start() else Step(c, Run(c, es[..|es| - 1]), es[|es| - 1])
  }

  // ---------------------------------------------------------------- the heap

  ghost predicate Ordered<P>(heap: seq<Item<P>>) {
    forall i, j :: 0 <= i < j < |heap| ==> Less(heap[i], heap[j])
  }

  /** Sequence numbers below n, each at most once. */
  ghost predicate Numbered<P>(heap: seq<Item<P>>, n: nat) {
    && (forall i :: 0 <= i < |heap| ==> heap[i].seqNo < n && heap[i].basePrio <= 2)
    && (forall i, j :: 0 <= i < j < |heap| ==> heap[i].seqNo != heap[j].seqNo)
  }

  function Payloads<P>(heap: seq<Item<P>>): seq<P> {
    seq(|heap|, i requires 0 <= i < |heap| => heap[i].payload)
  }

  function PrioSum<P>(heap: seq<Item<P>>): nat {
    if |heap| == 0 then 0 else heap[0].basePrio + PrioSum(heap[1..])
  }

  lemma {:induction false} PushKeeps<P>(heap: seq<Item<P>>, x: Item<P>)
    ensures multiset(Push(heap, x)) == multiset(heap) + multiset{x}
    ensures |Push(heap, x)| == |heap| + 1
    ensures PrioSum(Push(heap, x)) == PrioSum(heap) + x.basePrio
  {
    if |heap| == 0 || Less(x, heap[0]) {
      assert ([x] + heap)[1..] == heap;
    } else {
      PushKeeps(heap[1..], x);
      var pushed := Push(heap[1..], x);
      assert heap == [heap[0]] + heap[1..] && ([heap[0]] + pushed)[1..] == pushed;
    }
  }

  lemma {:induction false} PushKeepsPayloads<P>(heap: seq<Item<P>>, x: Item<P>)
    ensures multiset(Payloads(Push(heap, x))) == multiset(Payloads(heap)) + multiset{x.payload}
  {
    if |heap| == 0 || Less(x, heap[0]) {
      assert Payloads([x] + heap) == [x.payload] + Payloads(heap);
    } else {
      PushKeepsPayloads(heap[1..], x);
      var pushed := Push(heap[1..], x);
      assert Payloads(heap) == [heap[0].payload] + Payloads(heap[1..]);
      assert Payloads([heap[0]] + pushed) == [heap[0].payload] + Payloads(pushed);
    }
  }

  lemma {:induction false} PushOrders<P>(heap: seq<Item<P>>, x: Item<P>, n: nat)
    requires Ordered(heap) && Numbered(heap, n) && x.seqNo < n && x.basePrio <= 2
    requires forall i :: 0 <= i < |heap| ==> heap[i].seqNo != x.seqNo
    ensures Ordered(Push(heap, x)) && Numbered(Push(heap, x), n)
    ensures forall y :: y in Push(heap, x) ==> y == x || y in heap
  {
    if |heap| > 0 && !Less(x, heap[0]) {
      var pushed := Push(heap[1..], x);
      PushOrders(heap[1..], x, n);
      forall i | 0 <= i < |pushed| ensures Less(heap[0], pushed[i]) && pushed[i].seqNo != heap[0].seqNo {
        assert pushed[i] in pushed;
        if pushed[i] != x {
          var k :| 0 <= k < |heap[1..]| && heap[1..][k] == pushed[i];
          assert heap[k + 1] == pushed[i];
        }
      }
    }
  }

  // ---------------------------------------------------------------- every run

  ghost predicate Inv<P>(c: Config, s: State<P>) {
    && |s.lastDispatch| == 3
    && Ordered(s.heap) && Numbered(s.heap, s.nextSeq)
    && multiset(s.enqueued) == multiset(Payloads(s.heap)) + multiset(Sent(s))
    && s.promotions + PrioSum(s.heap) <= s.enqueuedPrio
    && Spaced(c, s)
  }

  function Sent<P>(s: State<P>): seq<P> {
    seq(|s.dispatched|, i requires 0 <= i < |s.dispatched| => s.dispatched[i].payload)
  }

  /** Dispatches of one class are its spacing apart, and lastDispatch is not before any of them. */
  ghost predicate Spaced<P>(c: Config, s: State<P>)
    requires |s.lastDispatch| == 3
  {
    && |c.spacing| == 3
    && (forall i :: 0 <= i < |s.dispatched| ==>
          s.dispatched[i].prio <= 2 && s.dispatched[i].mono <= s.lastDispatch[s.dispatched[i].prio])
    && (forall i, j :: 0 <= i < j < |s.dispatched| && s.dispatched[i].prio == s.dispatched[j].prio ==>
          s.dispatched[j].mono - s.dispatched[i].mono >= c.spacing[s.dispatched[i].prio])
  }

  lemma EnqueueKeepsInv<P>(c: Config, s: State<P>, e: Event<P>)
    requires Inv(c, s) && e.Enqueue?
    ensures Inv(c, Step(c, s, e))
  {
    if !Refuses(c, s, e.prio) {
      var x := Item(e.prio, s.nextSeq, e.ts, e.payload);
      PushKeeps(s.heap, x);
      PushKeepsPayloads(s.heap, x);
      PushOrders(s.heap, x, s.nextSeq + 1);
      assert Sent(Step(c, s, e)) == Sent(s);
    }
  }

  lemma PutBackKeepsInv<P>(c: Config, s: State<P>, x: Item<P>, s': State<P>)
    requires Inv(c, s) && |s.heap| > 0
    requires x == s.heap[0].(basePrio := x.basePrio) && x.basePrio <= s.heap[0].basePrio
    requires s' == s.(heap := Push(s.heap[1..], x), promotions := s'.promotions)
    requires s'.promotions + x.basePrio <= s.promotions + s.heap[0].basePrio
    ensures Inv(c, s')
  {
    var rest := s.heap[1..];
    PushKeeps(rest, x);
    PutBackKeepsPayloads(s.heap, x);
    PushOrders(rest, x, s.nextSeq);
    assert Sent(s') == Sent(s);
  }

  lemma PutBackKeepsPayloads<P>(heap: seq<Item<P>>, x: Item<P>)
    requires |heap| > 0 && x.payload == heap[0].payload
    ensures multiset(Payloads(Push(heap[1..], x))) == multiset(Payloads(heap))
  {
    PushKeepsPayloads(heap[1..], x);
    assert Payloads(heap) == [x.payload] + Payloads(heap[1..]);
  }

  lemma DispatchKeepsInv<P>(c: Config, s: State<P>, wall: real, mono: real)
    requires ValidConfig(c) && Inv(c, s) && |s.heap| > 0 && Due(c, s, wall, mono)
    ensures Inv(c, Step(c, s, PopTurn(wall, mono)))
  {
    var x, rest := s.heap[0], s.heap[1..];
    var s' := Step(c, s, PopTurn(wall, mono));
    assert Payloads(s.heap) == [x.payload] + Payloads(rest);
    assert Sent(s') == Sent(s) + [x.payload];
  }

  lemma StepKeepsInv<P>(c: Config, s: State<P>, e: Event<P>)
    requires ValidConfig(c) && Inv(c, s)
    ensures Inv(c, Step(c, s, e))
  {
    match e
    case Enqueue(_, _, _) => EnqueueKeepsInv(c, s, e);
    case PopTurn(wall, mono) =>
      if |s.heap| > 0 {
        var x := s.heap[0];
        if Effective(x, wall) < x.basePrio {
          PutBackKeepsInv(c, s, x.(basePrio := Effective(x, wall)), Step(c, s, e));
        } else if !Due(c, s, wall, mono) {
          PutBackKeepsInv(c, s, x, Step(c, s, e));
        } else {
          DispatchKeepsInv(c, s, wall, mono);
        }
      }
  }

  lemma {:induction false} RunKeepsInv<P>(c: Config, es: seq<Event<P>>)
    requires ValidConfig(c)
    ensures Inv(c, Run(c, es))
  {
    if |es| > 0 {
      RunKeepsInv(c, es[..|es| - 1]);
      StepKeepsInv(c, Run(c, es[..|es| - 1]), es[|es| - 1]);
    } else {
      assert Payloads(Start<P>().heap) == [] && Sent(Start<P>()) == [];
    }
  }

  /** No payload is lost or duplicated: what was accepted is what was dispatched plus what waits. */
  lemma PayloadsAreConserved<P>(c: Config, es: seq<Event<P>>)
    requires ValidConfig(c)
    ensures var s := Run(c, es); multiset(s.enqueued) == multiset(Payloads(s.heap)) + multiset(Sent(s))
  {
    RunKeepsInv(c, es);
  }

  /** Any two dispatches in one class are at least its spacing apart. */
  lemma DispatchesAreSpaced<P>(c: Config, es: seq<Event<P>>, i: nat, j: nat)
    requires ValidConfig(c) && i < j < |Run(c, es).dispatched|
    requires Run(c, es).dispatched[i].prio == Run(c, es).dispatched[j].prio
    ensures var d := Run(c, es).dispatched;
            d[i].prio <= 2 && d[j].mono - d[i].mono >= c.spacing[d[i].prio]
  {
    RunKeepsInv(c, es);
  }

  /** A pop turn dispatches exactly if the head of the heap is due; and the head is the one item
      that comes before all others in the heap. */
  lemma DispatchesTheLeastDueItem<P>(c: Config, es: seq<Event<P>>, wall: real, mono: real)
    requires ValidConfig(c)
    ensures var s, s' := Run(c, es), Step(c, Run(c, es), PopTurn(wall, mono));
            && (s'.dispatched != s.dispatched <==> |s.heap| > 0 && Due(c, s, wall, mono))
            && (s'.dispatched != s.dispatched ==>
                  && s'.dispatched == s.dispatched + [Dispatch(mono, s.heap[0].basePrio, s.heap[0].payload)]
                  && Effective(s.heap[0], wall) == s.heap[0].basePrio
                  && forall i :: 0 < i < |s.heap| ==> Less(s.heap[0], s.heap[i]))
  {
    RunKeepsInv(c, es);
  }

  /** An enqueue is refused exactly for an unknown class, or a critical item on a full heap; otherwise the
      heap holds the item besides. */
  lemma EnqueuesExactly<P>(c: Config, s: State<P>, prio: nat, payload: P, ts: real)
    ensures var s' := Step(c, s, Enqueue(prio, payload, ts));
            if prio > 2 || (prio == 0 && |s.heap| >= c.criticalMaxsize) then s' == s
            else
              && multiset(s'.heap) == multiset(s.heap) + multiset{Item(prio, s.nextSeq, ts, payload)}
              && s'.enqueued == s.enqueued + [payload]
  {
    PushKeeps(s.heap, Item(prio, s.nextSeq, ts, payload));
  }

  /** An item rises by a class for each whole second that it has waited, to the top at most. */
  function Risen<P>(x: Item<P>, wall: real): nat {
    if x.basePrio > 1 && wall - x.enqueueTs >= 2.0 then x.basePrio - 2
    else if x.basePrio > 0 && wall - x.enqueueTs >= 1.0 then x.basePrio - 1
    else x.basePrio
  }

  lemma AgeRaises<P>(x: Item<P>, wall: real)
    requires x.basePrio <= 2
    ensures Effective(x, wall) == Risen(x, wall)
  {
  }

  /** What a turn does with the head: raised, if it has waited a second or more below the top; else
      dispatched, if its class has been quiet for the spacing; else put back. */
  lemma TurnsExactly<P>(c: Config, es: seq<Event<P>>, wall: real, mono: real)
    requires ValidConfig(c) && |Run(c, es).heap| > 0
    ensures var s, s' := Run(c, es), Step(c, Run(c, es), PopTurn(wall, mono));
            var x, rest := s.heap[0], s.heap[1..];
            && x.basePrio <= 2
            && (forall i :: 0 < i < |s.heap| ==>
                  var y := s.heap[i]; x.basePrio < y.basePrio || (x.basePrio == y.basePrio && x.seqNo < y.seqNo))
            && (if Risen(x, wall) < x.basePrio
                then multiset(s'.heap) == multiset(rest) + multiset{x.(basePrio := Risen(x, wall))}
                     && s'.dispatched == s.dispatched
                else if mono - LastOf(s.dispatched, x.basePrio) >= c.spacing[x.basePrio]
                then s'.heap == rest && s'.dispatched == s.dispatched + [Dispatch(mono, x.basePrio, x.payload)]
                else multiset(s'.heap) == multiset(s.heap) && s'.dispatched == s.dispatched)
  {
    RunKeepsInv(c, es);
    LastDispatchIsLast(c, es);
    var s := Run(c, es);
    var x := s.heap[0];
    assert s.heap == [x] + s.heap[1..];
    AgeRaises(x, wall);
    PushKeeps(s.heap[1..], x);
    PushKeeps(s.heap[1..], x.(basePrio := Effective(x, wall)));
  }

  /** When a class last dispatched; zero if it never has. */
  function LastOf<P>(ds: seq<Dispatch<P>>, prio: nat): real {
    if |ds| == 0 then 0.0
    else if ds[|ds| - 1].prio == prio then ds[|ds| - 1].mono
    else LastOf(ds[..|ds| - 1], prio)
  }

  lemma {:induction false} LastDispatchIsLast<P>(c: Config, es: seq<Event<P>>)
    requires ValidConfig(c)
    ensures var s := Run(c, es);
            |s.lastDispatch| == 3 && forall p: nat :: p < 3 ==> s.lastDispatch[p] == LastOf(s.dispatched, p)
  {
    if |es| > 0 {
      var n := |es| - 1;
      LastDispatchIsLast(c, es[..n]);
      RunKeepsInv(c, es[..n]);
      DispatchIsLast(c, Run(c, es[..n]), es[n]);
    }
  }

  lemma DispatchIsLast<P>(c: Config, s: State<P>, e: Event<P>)
    requires Inv(c, s) && forall p: nat :: p < 3 ==> s.lastDispatch[p] == LastOf(s.dispatched, p)
    ensures var s' := Step(c, s, e);
            |s'.lastDispatch| == 3 && forall p: nat :: p < 3 ==> s'.lastDispatch[p] == LastOf(s'.dispatched, p)
  {
    var s' := Step(c, s, e);
    if s'.dispatched != s.dispatched {
      assert s'.dispatched[..|s.dispatched|] == s.dispatched;
    }
  }

  lemma PopLowers<P>(c: Config, s: State<P>, wall: real, mono: real)
    ensures var s' := Step(c, s, PopTurn(wall, mono));
            s'.promotions + PrioSum(s'.heap) <= s.promotions + PrioSum(s.heap)
  {
    if |s.heap| > 0 {
      var x := s.heap[0];
      PushKeeps(s.heap[1..], x);
      PushKeeps(s.heap[1..], x.(basePrio := Effective(x, wall)));
    }
  }

  lemma {:induction false} PopsOnly<P>(c: Config, s: State<P>, es: seq<Event<P>>) returns (s': State<P>)
    requires ValidConfig(c) && Inv(c, s) && forall i :: 0 <= i < |es| ==> es[i].PopTurn?
    ensures s' == After(c, s, es) && s'.promotions + PrioSum(s'.heap) <= s.promotions + PrioSum(s.heap)
    ensures Inv(c, s')
  {
    s' := s;
    if |es| > 0 {
      var n := |es| - 1;
      var mid := PopsOnly(c, s, es[..n]);
      s' := Step(c, mid, es[n]);
      StepKeepsInv(c, mid, es[n]);
      PopLowers(c, mid, es[n].wall, es[n].mono);
    }
  }

  function After<P>(c: Config, s: State<P>, es: seq<Event<P>>): State<P> {
    if |es| == 0 then s else Step(c, After(c, s, es[..|es| - 1]), es[|es| - 1])
  }

  /** From any reachable state, without new enqueues, the priorities in the heap bound the
      promotions still to come; so waiting turns cannot promote forever. */
  lemma PromotionsAreBounded<P>(c: Config, es: seq<Event<P>>, pops: seq<Event<P>>)
    requires ValidConfig(c) && forall i :: 0 <= i < |pops| ==> pops[i].PopTurn?
    ensures After(c, Run(c, es), pops).promotions <= Run(c, es).promotions + PrioSum(Run(c, es).heap)
    ensures Run(c, es).promotions <= Run(c, es).enqueuedPrio
  {
    RunKeepsInv(c, es);
    var s' := PopsOnly(c, Run(c, es), pops);
  }

  // ---------------------------------------------------------------- the pacer object

  class PacerQueue<P> {
    const config: Config
    var heap: seq<Item<P>>
    var nextSeq: nat
    var lastDispatch: seq<real>
    ghost var enqueued: seq<P>
    ghost var enqueuedPrio: nat
    ghost var dispatched: seq<Dispatch<P>>
    ghost var promotions: nat

    ghost function Abs(): State<P>
      reads this
    {
      State(heap, nextSeq, lastDispatch, enqueued, enqueuedPrio, dispatched, promotions)
    }

    constructor (config: Config)
      ensures this.config == config && Abs() == Start()
    {
      this.config := config;
      heap, nextSeq, lastDispatch := [], 0, [0.0, 0.0, 0.0];
      enqueued, enqueuedPrio, dispatched, promotions := [], 0, [], 0;
    }

    method Enqueue(prio: nat, payload: P, ts: real) returns (refused: bool)
      modifies this
      ensures refused <==> prio > 2 || (prio == 0 && |old(heap)| >= config.criticalMaxsize)
      ensures Abs() == Step(config, old(Abs()), Event.Enqueue(prio, payload, ts))
    {
      if prio > 2 { return true; }
      if prio == 0 && |heap| >= config.criticalMaxsize { return true; }
      refused := false;
      heap := Push(heap, Item(prio, nextSeq, ts, payload));
      nextSeq := nextSeq + 1;
      enqueued, enqueuedPrio := enqueued + [payload], enqueuedPrio + prio;
    }

    /** One turn of the pop loop: the payload dispatched, if any; otherwise whether to try again. */
    method Turn(wall: real, mono: real) returns (result: seq<P>, again: bool)
      requires ValidConfig(config) && Inv(config, Abs())
      modifies this
      ensures Abs() == Step(config, old(Abs()), PopTurn(wall, mono))
      ensures |result| > 0 <==> |old(heap)| > 0 && Due(config, old(Abs()), wall, mono)
      ensures |result| > 0 ==> result == [old(heap)[0].payload]
      ensures again <==> |old(heap)| > 0 && |result| == 0
    {
      result, again := [], false;
      if |heap| == 0 { return; }
      var item := heap[0];
      heap := heap[1..];
      var effective := Effective(item, wall);
      if effective < item.basePrio {
        heap := Push(heap, item.(basePrio := effective));
        promotions := promotions + 1;
        again := true;
      } else {
        var since := mono - lastDispatch[item.basePrio];
        var gap := config.spacing[effective] - since;
        if gap > 0.0 {
          heap := Push(heap, item);
          again := true;
        } else {
          lastDispatch := lastDispatch[item.basePrio := mono];
          dispatched := dispatched + [Dispatch(mono, item.basePrio, item.payload)];
          result := [item.payload];
        }
      }
    }
  }
}
