/** One-second bars into five-second candles, as three components do it: the position simulator, the
  signal detector and the paper position manager.
 */
module Candles {
  import opened Basics

  const CANDLE_SEC := 5

  datatype Bar = Bar(sec: int, open: real, high: real, low: real, close: real)
  datatype Candle = Candle(sec: int, open: real, high: real, low: real, close: real)

  function Bucket(sec: int): (b: int)
    ensures b % CANDLE_SEC == 0 && b <= sec < b + CANDLE_SEC
  {
    sec / CANDLE_SEC * CANDLE_SEC
  }

  function NewCandle(b: Bar): Candle {
    Candle(Bucket(b.sec), b.open, b.high, b.low, b.close)
  }

  function Merge(c: Candle, b: Bar): Candle {
    Candle(c.sec, c.open, if b.high > c.high then b.high else c.high, if b.low < c.low then b.low else c.low, b.close)
  }

  // ---------------------------------------------------------------- the three aggregators

  /** The simulator: the active candle, if any, and the candles finalized so far. */
  datatype Agg = Agg(active: Option<Candle>, done: seq<Candle>)

  const NO_CANDLES := Agg(None, [])

  function Feed(a: Agg, b: Bar): Agg {
    if a.active.None? then a.(active := Some(NewCandle(b)))
    else
      var c := a.active.value;
      if Bucket(b.sec) > c.sec then Agg(Some(NewCandle(b)), a.done + [c])
      else if Bucket(b.sec) == c.sec then a.(active := Some(Merge(c, b)))
      else a
  }

  function FeedAll(bars: seq<Bar>): Agg {
    if |bars| == 0 then NO_CANDLES else Feed(FeedAll(bars[..|bars| - 1]), bars[|bars| - 1])
  }

  /** Everything finalized once the stream has ended. */
  function Flushed(a: Agg): seq<Candle> {
    if a.active.Some? then a.done + [a.active.value] else a.done
  }

  /** The detector keeps the active second apart from the active bucket. */
  datatype Det = Det(activeSec: Option<int>, active: Option<Candle>, done: seq<Candle>)

  function DetFeed(d: Det, b: Bar): Det {
    var bucket := Bucket(b.sec);
    if d.activeSec.None? then d.(active := Some(NewCandle(b)), activeSec := Some(bucket))
    else if bucket > d.activeSec.value then
      Det(Some(bucket), Some(NewCandle(b)), if d.active.Some? then d.done + [d.active.value] else d.done)
    else if bucket < d.activeSec.value || d.active.None? then d
    else d.(active := Some(Merge(d.active.value, b)))
  }

  function DetFeedAll(bars: seq<Bar>): Det {
    if |bars| == 0 then Det(None, None, []) else DetFeed(DetFeedAll(bars[..|bars| - 1]), bars[|bars| - 1])
  }

  function DetFlushed(d: Det): seq<Candle> {
    if d.active.Some? then d.done + [d.active.value] else d.done
  }

  /** The paper manager ignores bars whose close is not positive. */
  function PaperFeed(a: Agg, b: Bar): Agg {
    if b.close <= 0.0 then a else Feed(a, b)
  }

  function PaperFeedAll(bars: seq<Bar>): Agg {
    if |bars| == 0 then NO_CANDLES else PaperFeed(PaperFeedAll(bars[..|bars| - 1]), bars[|bars| - 1])
  }

  // ---------------------------------------------------------------- they agree

  /** On every stream, out-of-order bars included, detector and simulator finalize the same candles. */
  lemma {:induction false} DetectorAgrees(bars: seq<Bar>)
    ensures var d, a := DetFeedAll(bars), FeedAll(bars);
            && d.active == a.active && d.done == a.done && DetFlushed(d) == Flushed(a)
            && d.activeSec == if a.active.Some? then Some(a.active.value.sec) else None
  {
    if |bars| > 0 {
      DetectorAgrees(bars[..|bars| - 1]);
    }
  }

  function PositiveCloses(bars: seq<Bar>): seq<Bar> {
    if |bars| == 0 then []
    else PositiveCloses(bars[..|bars| - 1]) + if bars[|bars| - 1].close > 0.0 then [bars[|bars| - 1]] else []
  }

  ghost predicate AllPositive(bars: seq<Bar>) {
    forall i :: 0 <= i < |bars| ==> bars[i].close > 0.0
  }

  lemma {:induction false} AllKept(bars: seq<Bar>)
    requires AllPositive(bars)
    ensures PositiveCloses(bars) == bars
  {
    if |bars| > 0 {
      var n := |bars| - 1;
      AllKept(bars[..n]);
      assert bars[n].close > 0.0 && bars == bars[..n] + [bars[n]];
    }
  }

  lemma {:induction false} PaperFilters(bars: seq<Bar>)
    ensures PaperFeedAll(bars) == FeedAll(PositiveCloses(bars))
  {
    if |bars| > 0 {
      var n := |bars| - 1;
      PaperFilters(bars[..n]);
      var kept := PositiveCloses(bars[..n]);
      assert (kept + [bars[n]])[..|kept|] == kept && kept + [] == kept;
    }
  }

  /** The paper manager finalizes what the simulator does on the bars with a positive close; so on
      positive closes all three agree. */
  lemma PaperAgrees(bars: seq<Bar>)
    ensures PaperFeedAll(bars) == FeedAll(PositiveCloses(bars))
    ensures AllPositive(bars) ==> Flushed(PaperFeedAll(bars)) == Flushed(FeedAll(bars)) == DetFlushed(DetFeedAll(bars))
  {
    PaperFilters(bars);
    DetectorAgrees(bars);
    if AllPositive(bars) {
      AllKept(bars);
    }
  }

  // ---------------------------------------------------------------- they group

  /** Seconds of the candles: rising strictly, each a multiple of five. */
  ghost predicate Rising(cs: seq<Candle>) {
    && (forall i :: 0 <= i < |cs| ==> cs[i].sec % CANDLE_SEC == 0)
    && (forall i, j :: 0 <= i < j < |cs| ==> cs[i].sec < cs[j].sec)
  }

  /** What one bar does to the candles: opens a candle, goes into the last one, or is dropped. */
  lemma FlushedStep(a: Agg, b: Bar)
    ensures var cs, cs' := Flushed(a), Flushed(Feed(a, b));
            && Feed(a, b).active.Some?
            && (a.active.None? ==> cs' == cs + [NewCandle(b)])
            && (a.active.Some? ==>
                  var m := |cs| - 1;
                  && |cs| > 0 && cs[m] == a.active.value
                  && cs' == if Bucket(b.sec) > cs[m].sec then cs + [NewCandle(b)]
                            else if Bucket(b.sec) == cs[m].sec then cs[..m] + [Merge(cs[m], b)]
                            else cs)
  {
    if a.active.Some? {
      assert Flushed(a)[..|a.done|] == a.done;
    }
  }

  /** On every stream the finalized seconds rise strictly in multiples of five. */
  lemma {:induction false} CandlesRise(bars: seq<Bar>)
    ensures Rising(Flushed(FeedAll(bars)))
    ensures |bars| > 0 <==> FeedAll(bars).active.Some?
    ensures |bars| == 0 ==> Flushed(FeedAll(bars)) == []
  {
    if |bars| > 0 {
      var n := |bars| - 1;
      CandlesRise(bars[..n]);
      RisesOn(FeedAll(bars[..n]), bars[n]);
    }
  }

  lemma RisesOn(a: Agg, b: Bar)
    requires Rising(Flushed(a)) && (a.active.None? ==> Flushed(a) == [])
    ensures Rising(Flushed(Feed(a, b))) && Feed(a, b).active.Some?
  {
    FlushedStep(a, b);
  }

  /** The bars of one bucket, in order. */
  function InBucket(bars: seq<Bar>, sec: int): seq<Bar> {
    if |bars| == 0 then []
    else InBucket(bars[..|bars| - 1], sec) + if Bucket(bars[|bars| - 1].sec) == sec then [bars[|bars| - 1]] else []
  }

  function MaxHigh(bars: seq<Bar>): real
    requires |bars| > 0
  {
    var last := bars[|bars| - 1].high;
    if |bars| == 1 then last else var rest := MaxHigh(bars[..|bars| - 1]); if last > rest then last else rest
  }

  function MinLow(bars: seq<Bar>): real
    requires |bars| > 0
  {
    var last := bars[|bars| - 1].low;
    if |bars| == 1 then last else var rest := MinLow(bars[..|bars| - 1]); if last < rest then last else rest
  }

  /** A candle is the summary of the bars of its bucket: first open, highest high, lowest low, last
      close. */
  ghost predicate Summarizes(c: Candle, bars: seq<Bar>) {
    var group := InBucket(bars, c.sec);
    && |group| > 0
    && c.open == group[0].open && c.close == group[|group| - 1].close
    && c.high == MaxHigh(group) && c.low == MinLow(group)
  }

  ghost predicate InOrder(bars: seq<Bar>) {
    forall i, j :: 0 <= i <= j < |bars| ==> bars[i].sec <= bars[j].sec
  }

  lemma OneMoreBar(c: Candle, bars: seq<Bar>, b: Bar)
    requires Summarizes(c, bars)
    ensures Bucket(b.sec) != c.sec ==> Summarizes(c, bars + [b])
    ensures Bucket(b.sec) == c.sec ==> Summarizes(Merge(c, b), bars + [b])
  {
    assert (bars + [b])[..|bars|] == bars;
    var group := InBucket(bars, c.sec);
    var more := group + [b];
    assert more[..|group|] == group;
    assert MaxHigh(more) == if b.high > MaxHigh(group) then b.high else MaxHigh(group);
    assert MinLow(more) == if b.low < MinLow(group) then b.low else MinLow(group);
    assert InBucket(bars + [b], c.sec) == if Bucket(b.sec) == c.sec then more else group;
  }

  lemma {:induction false} EmptyBucket(bars: seq<Bar>, sec: int)
    requires forall i :: 0 <= i < |bars| ==> Bucket(bars[i].sec) < sec
    ensures InBucket(bars, sec) == []
  {
    if |bars| > 0 {
      EmptyBucket(bars[..|bars| - 1], sec);
    }
  }

  lemma FirstBar(bars: seq<Bar>, b: Bar)
    requires forall i :: 0 <= i < |bars| ==> Bucket(bars[i].sec) < Bucket(b.sec)
    ensures Summarizes(NewCandle(b), bars + [b])
  {
    assert (bars + [b])[..|bars|] == bars;
    EmptyBucket(bars, Bucket(b.sec));
  }

  /** The candles of a stream in order, with the last one for the last bar. */
  ghost predicate Groups(cs: seq<Candle>, bars: seq<Bar>) {
    && (forall k :: 0 <= k < |cs| ==> Summarizes(cs[k], bars))
    && (forall i :: 0 <= i < |bars| ==> HasCandle(cs, Bucket(bars[i].sec)))
    && (|bars| > 0 ==> |cs| > 0 && cs[|cs| - 1].sec == Bucket(bars[|bars| - 1].sec))
  }

  ghost predicate HasCandle(cs: seq<Candle>, sec: int) {
    exists k :: 0 <= k < |cs| && cs[k].sec == sec
  }

  /** The seconds of candles that are there stay. */
  lemma StillHas(cs: seq<Candle>, cs': seq<Candle>, sec: int)
    requires |cs| <= |cs'| && forall k :: 0 <= k < |cs| ==> cs'[k].sec == cs[k].sec
    requires HasCandle(cs, sec)
    ensures HasCandle(cs', sec)
  {
    var k :| 0 <= k < |cs| && cs[k].sec == sec;
    assert cs'[k].sec == sec;
  }

  lemma LaterBar(c: Candle, bars: seq<Bar>, b: Bar)
    requires Summarizes(c, bars) && forall i :: 0 <= i < |bars| ==> Bucket(bars[i].sec) < Bucket(b.sec)
    ensures Summarizes(c, bars + [b])
  {
    if Bucket(b.sec) == c.sec { EmptyBucket(bars, c.sec); }
    OneMoreBar(c, bars, b);
  }

  lemma NextGroup(cs: seq<Candle>, bars: seq<Bar>, b: Bar)
    requires Groups(cs, bars) && |bars| > 0 && InOrder(bars + [b])
    requires Bucket(b.sec) > cs[|cs| - 1].sec
    ensures Groups(cs + [NewCandle(b)], bars + [b])
  {
    var cs', all := cs + [NewCandle(b)], bars + [b];
    forall i | 0 <= i < |bars| ensures Bucket(bars[i].sec) < Bucket(b.sec) {
      assert all[i].sec <= all[|bars| - 1].sec;
    }
    FirstBar(bars, b);
    forall k | 0 <= k < |cs| ensures Summarizes(cs[k], all) {
      LaterBar(cs[k], bars, b);
    }
    forall i | 0 <= i < |all| ensures HasCandle(cs', Bucket(all[i].sec)) {
      if i < |bars| {
        StillHas(cs, cs', Bucket(bars[i].sec));
      } else {
        assert cs'[|cs|] == NewCandle(b);
      }
    }
  }

  lemma SameGroup(cs: seq<Candle>, bars: seq<Bar>, b: Bar)
    requires Groups(cs, bars) && Rising(cs) && |bars| > 0 && Bucket(b.sec) == cs[|cs| - 1].sec
    ensures Groups(cs[..|cs| - 1] + [Merge(cs[|cs| - 1], b)], bars + [b])
  {
    var m := |cs| - 1;
    var cs', all := cs[..m] + [Merge(cs[m], b)], bars + [b];
    assert forall k :: 0 <= k < |cs| ==> cs'[k].sec == cs[k].sec;
    SameSums(cs, bars, b);
    forall i | 0 <= i < |all| ensures HasCandle(cs', Bucket(all[i].sec)) {
      assert HasCandle(cs, if i < |bars| then Bucket(bars[i].sec) else cs[m].sec);
      StillHas(cs, cs', Bucket(all[i].sec));
    }
  }

  lemma SameSums(cs: seq<Candle>, bars: seq<Bar>, b: Bar)
    requires |cs| > 0 && Rising(cs) && Bucket(b.sec) == cs[|cs| - 1].sec
    requires forall k :: 0 <= k < |cs| ==> Summarizes(cs[k], bars)
    ensures var m := |cs| - 1;
            forall k :: 0 <= k < |cs| ==> Summarizes((cs[..m] + [Merge(cs[m], b)])[k], bars + [b])
  {
    var m := |cs| - 1;
    var cs' := cs[..m] + [Merge(cs[m], b)];
    forall k | 0 <= k < |cs| ensures Summarizes(cs'[k], bars + [b]) {
      OneMoreBar(cs[k], bars, b);
      assert cs'[k] == if k < m then cs[k] else Merge(cs[m], b);
    }
  }

  lemma FirstGroup(bars: seq<Bar>, b: Bar)
    requires bars == []
    ensures Groups([] + [NewCandle(b)], bars + [b])
  {
    FirstBar(bars, b);
    assert ([] + [NewCandle(b)])[0] == NewCandle(b);
  }

  lemma GroupStep(a: Agg, bars: seq<Bar>, b: Bar)
    requires InOrder(bars + [b]) && Groups(Flushed(a), bars) && Rising(Flushed(a))
    requires |bars| > 0 <==> a.active.Some?
    requires |bars| == 0 ==> Flushed(a) == []
    ensures Groups(Flushed(Feed(a, b)), bars + [b])
  {
    FlushedStep(a, b);
    if |bars| == 0 {
      FirstGroup(bars, b);
    } else {
      GroupsGrow(Flushed(a), bars, b);
    }
  }

  lemma GroupsGrow(cs: seq<Candle>, bars: seq<Bar>, b: Bar)
    requires InOrder(bars + [b]) && Groups(cs, bars) && Rising(cs) && |bars| > 0
    ensures var m := |cs| - 1;
            Groups(if Bucket(b.sec) > cs[m].sec then cs + [NewCandle(b)] else cs[..m] + [Merge(cs[m], b)], bars + [b])
    ensures Bucket(b.sec) >= cs[|cs| - 1].sec
  {
    var n := |bars| - 1;
    assert (bars + [b])[n].sec <= (bars + [b])[n + 1].sec;
    if Bucket(b.sec) > cs[|cs| - 1].sec {
      NextGroup(cs, bars, b);
    } else {
      SameGroup(cs, bars, b);
    }
  }

  /** On a stream in order, the candles are the stream grouped by five-second bucket: each candle
      summarizes its bucket, and every bar's bucket has its candle. */
  lemma {:induction false} CandlesAreGroups(bars: seq<Bar>)
    requires InOrder(bars)
    ensures Groups(Flushed(FeedAll(bars)), bars)
  {
    if |bars| > 0 {
      var n := |bars| - 1;
      assert bars == bars[..n] + [bars[n]];
      CandlesAreGroups(bars[..n]);
      CandlesRise(bars[..n]);
      GroupStep(FeedAll(bars[..n]), bars[..n], bars[n]);
    }
  }

  // ---------------------------------------------------------------- bounded histories

  /** A bounded history: only its last cap candles are kept. */
  function Tail(cs: seq<Candle>, cap: nat): seq<Candle> {
    if |cs| <= cap then cs else cs[|cs| - cap..]
  }

  lemma TailGrows(log: seq<Candle>, cap: nat, c: Candle)
    ensures Tail(Tail(log, cap) + [c], cap) == Tail(log + [c], cap)
  {}

  // ---------------------------------------------------------------- the detector object

  /** A bar goes into the candle of its bucket. */
  method MergeBar(c: Candle, ev: Bar) returns (m: Candle)
    ensures m == Merge(c, ev)
  {
    m := c;
    if ev.high > m.high { m := m.(high := ev.high); }
    if ev.low < m.low { m := m.(low := ev.low); }
    m := m.(close := ev.close);
  }

  class SignalDetector {
    const maxHistory: nat
    var activeSec: Option<int>
    var active: Option<Candle>
    var candles: seq<Candle>   // the last maxHistory of those finalized
    ghost var state: Det

    ghost predicate Valid()
      reads this
    {
      activeSec == state.activeSec && active == state.active && candles == Tail(state.done, maxHistory)
    }

    constructor (maxHistory: nat)
      ensures Valid() && state == DetFeedAll([]) && this.maxHistory == maxHistory
    {
      this.maxHistory := maxHistory;
      activeSec, active, candles, state := None, None, [], Det(None, None, []);
    }

    method FinalizeActive()
      requires Valid()
      modifies this`active, this`candles, this`state
      ensures Valid() && state == Det(activeSec, None, DetFlushed(old(state)))
    {
      if active.None? { return; }
      TailGrows(state.done, maxHistory, active.value);
      candles := Tail(candles + [active.value], maxHistory);
      state := Det(activeSec, None, DetFlushed(state));
      active := None;
    }

    method FeedBar(ev: Bar)
      requires Valid()
      modifies this
      ensures Valid() && state == DetFeed(old(state), ev)
    {
      var bucket := Bucket(ev.sec);
      if activeSec.None? {
        active, activeSec, state := Some(NewCandle(ev)), Some(bucket), DetFeed(state, ev);
        return;
      }
      if bucket > activeSec.value {
        ghost var next := DetFeed(state, ev);
        FinalizeActive();
        active, activeSec, state := Some(NewCandle(ev)), Some(bucket), next;
        return;
      }
      if bucket < activeSec.value || active.None? { return; }
      var c := MergeBar(active.value, ev);
      active, state := Some(c), DetFeed(state, ev);
    }
  }
}
