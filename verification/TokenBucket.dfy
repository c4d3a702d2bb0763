/** The single global token bucket: 8 tokens a second, 15 at most.

  Waiters interleave freely; each turn of each waiter is one lock section at some clock reading.
 */
module TokenBucket {

  const RATE: real := 8.0
  const BURST: real := 15.0

  datatype Bucket = Bucket(tokens: real, last: real)

  /** A turn of some waiter: refill at the clock reading, then take the amount if it is there.
      Reading the level is a turn that takes nothing. */
  datatype Turn = Turn(now: real, amount: real)

  function Fresh(start: real): Bucket { Bucket(BURST, start) }

  function Refill(b: Bucket, now: real): Bucket {
    var more := b.tokens + (now - b.last) * RATE;
    Bucket(if more < BURST then more else BURST, now)
  }

  predicate Grants(b: Bucket, t: Turn) {
    Refill(b, t.now).tokens >= t.amount
  }

  function After(b: Bucket, t: Turn): Bucket {
    var r := Refill(b, t.now);
    if r.tokens >= t.amount then Bucket(r.tokens - t.amount, r.last) else r
  }

  function Run(start: real, ts: seq<Turn>): Bucket {
    if |ts| == 0 then Fresh(start) else After(Run(start, ts[..|ts| - 1]), ts[|ts| - 1])
  }

  /** Clock readings never run backwards and nobody asks for a negative amount. */
  ghost predicate Timely(start: real, ts: seq<Turn>) {
    && (forall i :: 0 <= i < |ts| ==> start <= ts[i].now && ts[i].amount >= 0.0)
    && (forall i, j :: 0 <= i < j < |ts| ==> ts[i].now <= ts[j].now)
  }

  /** Tokens granted at clock readings after s and up to t. */
  function GrantedIn(start: real, ts: seq<Turn>, s: real, t: real): real {
    if |ts| == 0 then 0.0
    else
      var n := |ts| - 1;
      GrantedIn(start, ts[..n], s, t) +
      if s < ts[n].now <= t && Grants(Run(start, ts[..n]), ts[n]) then ts[n].amount else 0.0
  }

  lemma TimelyPrefix(start: real, ts: seq<Turn>)
    requires Timely(start, ts) && |ts| > 0
    ensures Timely(start, ts[..|ts| - 1])
  {
    var p := ts[..|ts| - 1];
    forall i | 0 <= i < |p| ensures start <= p[i].now && p[i].amount >= 0.0 { assert p[i] == ts[i]; }
  }

  /** The level stays between zero and BURST, and the bucket's clock is the last reading. */
  lemma {:induction false} LevelStaysInRange(start: real, ts: seq<Turn>)
    requires Timely(start, ts)
    ensures 0.0 <= Run(start, ts).tokens <= BURST
    ensures Run(start, ts).last == if |ts| == 0 then start else ts[|ts| - 1].now
  {
    if |ts| > 0 {
      var n := |ts| - 1;
      TimelyPrefix(start, ts);
      LevelStaysInRange(start, ts[..n]);
      assert n > 0 ==> ts[..n][n - 1].now <= ts[n].now;
    }
  }

  /** What was granted after s, together with what is left, is no more than BURST plus the refill
      since s. */
  lemma {:induction false} GrantsPlusLevel(start: real, ts: seq<Turn>, s: real, t: real)
    requires Timely(start, ts) && s <= t
    requires |ts| > 0 ==> ts[|ts| - 1].now <= t
    ensures var b := Run(start, ts);
            GrantedIn(start, ts, s, t) + b.tokens <= BURST + if b.last <= s then 0.0 else (b.last - s) * RATE
    ensures Run(start, ts).last <= s ==> GrantedIn(start, ts, s, t) == 0.0
  {
    LevelStaysInRange(start, ts);
    if |ts| > 0 {
      var n := |ts| - 1;
      TimelyPrefix(start, ts);
      assert n > 0 ==> ts[..n][n - 1].now <= ts[n].now;
      GrantsPlusLevel(start, ts[..n], s, t);
      LevelStaysInRange(start, ts[..n]);
    }
  }

  lemma {:induction false} LaterTurnsDoNotCount(start: real, ts: seq<Turn>, n: nat, s: real, t: real)
    requires n <= |ts| && forall i :: n <= i < |ts| ==> ts[i].now > t
    ensures GrantedIn(start, ts, s, t) == GrantedIn(start, ts[..n], s, t)
    decreases |ts| - n
  {
    var k := |ts|;
    if n < k {
      LaterTurnsDoNotCount(start, ts[..k - 1], n, s, t);
      assert ts[..k - 1][..n] == ts[..n];
    } else {
      assert ts[..n] == ts;
    }
  }

  lemma {:induction false} TurnsUpTo(start: real, ts: seq<Turn>, t: real) returns (n: nat)
    requires Timely(start, ts)
    ensures n <= |ts|
    ensures forall i :: 0 <= i < n ==> ts[i].now <= t
    ensures forall i :: n <= i < |ts| ==> ts[i].now > t
  {
    n := 0;
    while n < |ts| && ts[n].now <= t
      invariant n <= |ts| && forall i :: 0 <= i < n ==> ts[i].now <= t
    {
      n := n + 1;
    }
  }

  /** The rate bound: in any window (s, t], whatever the waiters and their order, no more than
      15 + 8 (t - s) tokens are granted. */
  lemma RateBound(start: real, ts: seq<Turn>, s: real, t: real)
    requires Timely(start, ts) && s <= t
    ensures GrantedIn(start, ts, s, t) <= BURST + RATE * (t - s)
  {
    var n := TurnsUpTo(start, ts, t);
    LaterTurnsDoNotCount(start, ts, n, s, t);
    var early := ts[..n];
    assert Timely(start, early);
    GrantsPlusLevel(start, early, s, t);
    LevelStaysInRange(start, early);
  }

  /** The bound is met: a full bucket drained at once and then as fast as it refills. */
  lemma RateBoundIsTight(start: real, gap: real)
    requires 0.0 <= gap * RATE <= BURST
    ensures var ts := [Turn(start + 1.0, BURST), Turn(start + 1.0 + gap, gap * RATE)];
            Timely(start, ts) && GrantedIn(start, ts, start, start + 1.0 + gap) == BURST + RATE * gap
  {
    var t1, t2 := Turn(start + 1.0, BURST), Turn(start + 1.0 + gap, gap * RATE);
    var ts := [t1, t2];
    assert ts[..1] == [t1] && [t1][..0] == [];
    assert Run(start, [t1]) == After(Fresh(start), t1) == Bucket(0.0, start + 1.0);
    assert GrantedIn(start, [], start, start + 1.0 + gap) == 0.0;
    assert GrantedIn(start, [t1], start, start + 1.0 + gap) == BURST;
  }

  /** How long a refused waiter sleeps. */
  function WaitTime(b: Bucket, t: Turn): real {
    (t.amount - Refill(b, t.now).tokens) / RATE
  }

  /** A refused waiter that sleeps its wait time and is not overtaken meanwhile succeeds on its next
      turn exactly if it asks for at most BURST; a larger request is refused forever. */
  lemma SleepingIsEnough(b: Bucket, t: Turn)
    requires 0.0 <= b.tokens <= BURST && b.last <= t.now && !Grants(b, t)
    ensures WaitTime(b, t) > 0.0
    ensures Grants(After(b, t), Turn(t.now + WaitTime(b, t), t.amount)) <==> t.amount <= BURST
    ensures t.amount > BURST ==> forall later :: !Grants(After(b, t), Turn(later, t.amount))
  {
    var r := Refill(b, t.now);
    assert After(b, t) == r;
    var wait := WaitTime(b, t);
    assert r.tokens + ((t.now + wait) - r.last) * RATE == t.amount;
  }

  class TokenBucket {
    var tokens: real
    var last: real

    ghost function Abs(): Bucket
      reads this
    {
      Bucket(tokens, last)
    }

    constructor (now: real)
      ensures Abs() == Fresh(now)
    {
      tokens := BURST;
      last := now;
    }

    method RefillAt(now: real)
      modifies this
      ensures Abs() == Refill(old(Abs()), now)
    {
      var elapsed := now - last;
      tokens := if tokens + elapsed * RATE < BURST then tokens + elapsed * RATE else BURST;
      last := now;
    }

    /** One lock section of an acquire: granted, or the time to sleep before the next try. */
    method AcquireTurn(now: real, amount: real) returns (granted: bool, wait: real)
      modifies this
      ensures Abs() == After(old(Abs()), Turn(now, amount))
      ensures granted == Grants(old(Abs()), Turn(now, amount))
      ensures !granted ==> wait == WaitTime(old(Abs()), Turn(now, amount))
    {
      RefillAt(now);
      if tokens >= amount {
        tokens := tokens - amount;
        return true, 0.0;
      }
      granted := false;
      wait := (amount - tokens) / RATE;
    }
  }
}
