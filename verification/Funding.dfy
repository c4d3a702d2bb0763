/** Funding boundaries: 00:00, 08:00 and 16:00 UTC, as milliseconds since the epoch. */
module Funding {

  const HOUR: int := 3_600_000
  const DAY: int := 86_400_000
  const PERIOD: int := 28_800_000

  /** The least multiple of eight hours after t. */
  function NextBoundary(t: int): (m: int)
    ensures m % PERIOD == 0 && t < m <= t + PERIOD
  {
    (t / PERIOD + 1) * PERIOD
  }

  lemma NextBoundaryIsLeast(t: int, m: int)
    requires m % PERIOD == 0 && m > t
    ensures NextBoundary(t) <= m
  {
    assert m == m / PERIOD * PERIOD;
    assert m / PERIOD > t / PERIOD;
  }

  /** Boundaries within a day lie at its funding hours. */
  lemma BoundaryOfDay(t: int, hour: int)
    requires hour == (t - t / DAY * DAY) / HOUR
    ensures 0 <= hour < 24
    ensures hour < 8 ==> NextBoundary(t) == t / DAY * DAY + 8 * HOUR
    ensures 8 <= hour < 16 ==> NextBoundary(t) == t / DAY * DAY + 16 * HOUR
    ensures 16 <= hour ==> NextBoundary(t) == t / DAY * DAY + DAY
  {
    var day := t / DAY;
    var rest := t - day * DAY;
    assert 0 <= rest < DAY && hour * HOUR <= rest < hour * HOUR + HOUR;
    if hour < 8 {
      PeriodOf(t, 3 * day);
    } else if hour < 16 {
      PeriodOf(t, 3 * day + 1);
    } else {
      PeriodOf(t, 3 * day + 2);
    }
  }

  lemma PeriodOf(t: int, k: int)
    requires k * PERIOD <= t < k * PERIOD + PERIOD
    ensures NextBoundary(t) == k * PERIOD + PERIOD
  {}

  /** The next boundary as the code finds it: one millisecond is added, then the funding hours of
      that day are tried in turn, then midnight of the next day. The result is the least boundary
      strictly after ts + 1. */
  method NextFundingTs(ts: int) returns (target: int)
    ensures target == NextBoundary(ts + 1)
  {
    var t := ts + 1;
    var midnight := t / DAY * DAY;
    var hour := (t - midnight) / HOUR;
    BoundaryOfDay(t, hour);
    var hours := [0, 8, 16];
    for i := 0 to |hours|
      invariant i > 0 ==> hour >= hours[i - 1]
    {
      if hour < hours[i] {
        return midnight + hours[i] * HOUR;
      }
    }
    target := midnight + DAY;
  }

  // ---------------------------------------------------------------- the funding loop

  /** fired: the boundaries the loop body ran for. */
  datatype Clock = Idle | Running(next: int, fired: seq<int>)

  /** The boundaries from next up to ts. */
  function Due(next: int, ts: int): seq<int>
    decreases ts - next
  {
    if ts < next then [] else [next] + Due(next + PERIOD, ts)
  }

  function NextAfter(next: int, ts: int): (n: int)
    ensures ts < n
    decreases ts - next
  {
    if ts < next then next else NextAfter(next + PERIOD, ts)
  }

  /** One turn of the loop: from a boundary reached, the code's next boundary is one period on. */
  lemma OneTurn(next: int, ts: int)
    requires next % PERIOD == 0 && ts >= next
    ensures NextBoundary(next + 2) == next + PERIOD && (next + PERIOD) % PERIOD == 0
    ensures |Due(next, ts)| == 1 + |Due(next + PERIOD, ts)| && NextAfter(next, ts) == NextAfter(next + PERIOD, ts)
  {
    PeriodOf(next + 2, next / PERIOD);
  }

  /** One event of the symbol at ts: the first one sets the clock; then the loop runs. */
  function Tick(c: Clock, ts: int): Clock {
    var next := if c.Idle? then NextBoundary(ts + 1) else c.next;
    var fired := if c.Idle? then [] else c.fired;
    Running(NextAfter(next, ts), fired + Due(next, ts))
  }

  function Ticks(times: seq<int>): Clock {
    if |times| == 0 then Idle else Tick(Ticks(times[..|times| - 1]), times[|times| - 1])
  }

  function MaxTime(times: seq<int>): int
    requires |times| > 0
  {
    var last := times[|times| - 1];
    if |times| == 1 then last else var rest := MaxTime(times[..|times| - 1]); if last > rest then last else rest
  }

  ghost predicate RisesByPeriod(first: int, bs: seq<int>) {
    forall i :: 0 <= i < |bs| ==> bs[i] == first + i * PERIOD
  }

  lemma {:induction false} DueIsEvery(next: int, ts: int)
    ensures RisesByPeriod(next, Due(next, ts))
    ensures NextAfter(next, ts) == next + |Due(next, ts)| * PERIOD
    ensures |Due(next, ts)| > 0 ==> NextAfter(next, ts) - PERIOD <= ts
    decreases ts - next
  {
    if ts >= next {
      DueIsEvery(next + PERIOD, ts);
      var rest := Due(next + PERIOD, ts);
      forall i | 0 <= i < |Due(next, ts)| ensures Due(next, ts)[i] == next + i * PERIOD {
        if i > 0 { assert Due(next, ts)[i] == rest[i - 1] == next + PERIOD + (i - 1) * PERIOD; }
      }
    }
  }

  /** After any events, in order or not, the loop body has run for the boundaries after the first
      event plus one millisecond, one by one, and the next one lies after every time seen. */
  lemma {:induction false} FiredSoFar(times: seq<int>)
    requires |times| > 0
    ensures var c := Ticks(times);
            && c.Running? && RisesByPeriod(NextBoundary(times[0] + 1), c.fired)
            && c.next == NextBoundary(times[0] + 1) + |c.fired| * PERIOD
            && c.next > MaxTime(times)
            && (|c.fired| > 0 ==> c.next - PERIOD <= MaxTime(times))
  {
    var n := |times| - 1;
    var first := NextBoundary(times[0] + 1);
    if n == 0 {
      assert times[..0] == [];
      DueIsEvery(first, times[0]);
    } else {
      FiredSoFar(times[..n]);
      var before := Ticks(times[..n]);
      assert times[..n][0] == times[0];
      DueIsEvery(before.next, times[n]);
      var due := Due(before.next, times[n]);
      forall i | 0 <= i < |before.fired + due| ensures (before.fired + due)[i] == first + i * PERIOD {
        if i >= |before.fired| {
          assert due[i - |before.fired|] == before.next + (i - |before.fired|) * PERIOD;
        }
      }
    }
  }

  lemma BoundariesInRow(first: int, bs: seq<int>, m: int, t: int, max: int)
    requires first == NextBoundary(t) && RisesByPeriod(first, bs) && m % PERIOD == 0
    requires first + |bs| * PERIOD > max && (|bs| > 0 ==> first + |bs| * PERIOD - PERIOD <= max)
    ensures t < m <= max ==> m in bs
    ensures m in bs ==> t < m <= max
    ensures forall i, j :: 0 <= i < j < |bs| ==> bs[i] < bs[j]
  {
    if t < m <= max {
      NextBoundaryIsLeast(t, m);
      var i := m / PERIOD - first / PERIOD;
      PeriodIndex(first, m, i, |bs|);
      assert bs[i] == m;
    }
    if m in bs {
      var i :| 0 <= i < |bs| && bs[i] == m;
      Spread(i, |bs| - 1);
      assert m == first + i * PERIOD;
    }
    forall i, j | 0 <= i < j < |bs| ensures bs[i] < bs[j] { Spread(i, j); }
  }

  lemma Spread(i: nat, j: nat)
    requires i <= j
    ensures i * PERIOD <= j * PERIOD && (i < j ==> i * PERIOD < j * PERIOD)
  {}

  lemma PeriodIndex(first: int, m: int, i: int, n: nat)
    requires first % PERIOD == 0 && m % PERIOD == 0 && i == m / PERIOD - first / PERIOD
    requires first <= m < first + n * PERIOD
    ensures 0 <= i < n && m == first + i * PERIOD
  {
    assert m == m / PERIOD * PERIOD && first == first / PERIOD * PERIOD;
  }

  /** Over any run, whatever the order of the events, the loop body runs exactly once for each
      eight-hour boundary after the first event plus one millisecond and up to the latest time. */
  lemma OncePerBoundary(times: seq<int>, m: int)
    requires |times| > 0 && m % PERIOD == 0
    ensures var fired := Ticks(times).fired;
            && (m in fired <==> times[0] + 1 < m <= MaxTime(times))
            && (forall i, j :: 0 <= i < j < |fired| ==> fired[i] < fired[j])
  {
    FiredSoFar(times);
    BoundariesInRow(NextBoundary(times[0] + 1), Ticks(times).fired, m, times[0] + 1, MaxTime(times));
  }
}
