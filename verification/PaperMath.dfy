/** The money arithmetic shared by the simulator and the paper position manager: entry price, stop and
  target, size, fees, profit, R multiples, funding and the average true range. Prices are reals.
 */
module PaperMath {
  import opened Basics
  import opened Candles

  datatype Direction = Long | Short
  datatype ExitReason = TakeProfit | StopLoss | EndOfRun

  function Abs(x: real): real {
    if x < 0.0 then -x else x
  }

  function EntryFill(price: real, dir: Direction, slippageBps: real): real {
    if price <= 0.0 then 0.0
    else if dir.Long? then price * (1.0 + slippageBps / 10000.0)
    else price * (1.0 - slippageBps / 10000.0)
  }

  function Clamp(raw: real, cap: real, floor: real): real {
    var x := if raw < cap then raw else cap;
    if x > floor then x else floor
  }

  function SlDistance(atr: real, price: real, multiplier: real, maxPct: real, minPct: real): real {
    if atr <= 0.0 || price <= 0.0 then 0.0 else Clamp(multiplier * atr, maxPct * price, minPct * price)
  }

  function SlPrice(fill: real, distance: real, dir: Direction): real {
    if dir.Long? then fill - distance else fill + distance
  }

  function TpPrice(fill: real, distance: real, tpR: real, dir: Direction): real {
    if dir.Long? then fill + tpR * distance else fill - tpR * distance
  }

  function Qty(equity: real, riskPct: real, distance: real): real {
    if distance <= 0.0 || equity <= 0.0 then 0.0 else equity * riskPct / distance
  }

  function EntryFee(fill: real, qty: real, taker: real): real {
    fill * qty * taker
  }

  /** A target is filled as maker, every other exit as taker. */
  function ExitFee(price: real, qty: real, taker: real, maker: real, reason: ExitReason): real {
    price * qty * if reason.TakeProfit? then maker else taker
  }

  function PnlGross(fill: real, exit: real, qty: real, dir: Direction): real {
    if dir.Long? then (exit - fill) * qty else (fill - exit) * qty
  }

  function RMultiple(fill: real, exit: real, sl: real, dir: Direction): real {
    var r := Abs(fill - sl);
    if r <= 0.0 then 0.0
    else if dir.Long? then (exit - fill) / r
    else (fill - exit) / r
  }

  /** Positive: the position pays. */
  function FundingDelta(rate: real, notional: real, dir: Direction): real {
    if dir.Long? then rate * notional else -(rate * notional)
  }

  // ---------------------------------------------------------------- what the formulas amount to

  /** The size is chosen so that one R is the risked amount: for every exit price and both
      directions the gross profit is the R multiple times equity * riskPct. */
  lemma GrossIsRTimesRisk(fill: real, exit: real, distance: real, amount: real, dir: Direction)
    requires distance > 0.0
    ensures PnlGross(fill, exit, amount / distance, dir) ==
            RMultiple(fill, exit, SlPrice(fill, distance, dir), dir) * amount
  {
    var move := if dir.Long? then exit - fill else fill - exit;
    assert Abs(fill - SlPrice(fill, distance, dir)) == distance;
    assert move * (amount / distance) == move / distance * amount;
  }

  /** Leaving at the stop is -1 R and leaving at the target is tpR R. */
  lemma StopAndTarget(fill: real, distance: real, tpR: real, dir: Direction)
    requires distance > 0.0
    ensures RMultiple(fill, SlPrice(fill, distance, dir), SlPrice(fill, distance, dir), dir) == -1.0
    ensures RMultiple(fill, TpPrice(fill, distance, tpR, dir), SlPrice(fill, distance, dir), dir) == tpR
  {
    assert Abs(fill - SlPrice(fill, distance, dir)) == distance;
    assert tpR * distance / distance == tpR;
    assert -distance / distance == -1.0;
  }

  lemma Scaled(pct: real, p: real, q: real)
    requires p < q && pct > 0.0
    ensures pct * p < pct * q
  {
  }

  lemma Ordered(a: real, b: real, p: real)
    requires a <= b && p > 0.0
    ensures a * p <= b * p
  {
  }

  /** The simulator measures the distance at the signal close, the paper manager at the slipped fill.
      The two distances are the same exactly when neither price runs into the cap or the floor; so
      the claim that the formulas mirror the simulator exactly fails on clamped stops. */
  lemma DistancesAgree(atr: real, p: real, q: real, multiplier: real, maxPct: real, minPct: real)
    requires atr > 0.0 && 0.0 < p < q && 0.0 < minPct <= maxPct
    ensures SlDistance(atr, p, multiplier, maxPct, minPct) == SlDistance(atr, q, multiplier, maxPct, minPct)
            <==> minPct * q <= multiplier * atr <= maxPct * p
  {
    var raw, cap, floor, cap', floor' := multiplier * atr, maxPct * p, minPct * p, maxPct * q, minPct * q;
    assert floor < floor' by { Scaled(minPct, p, q); }
    assert cap < cap' by { Scaled(maxPct, p, q); }
    assert floor <= cap by { Ordered(minPct, maxPct, p); }
    assert floor' <= cap' by { Ordered(minPct, maxPct, q); }
    ClampAgrees(raw, cap, floor, cap', floor');
  }

  lemma ClampAgrees(raw: real, cap: real, floor: real, cap': real, floor': real)
    requires floor <= cap < cap' && floor < floor' <= cap'
    ensures Clamp(raw, cap, floor) == Clamp(raw, cap', floor') <==> floor' <= raw <= cap
  {}

  // ---------------------------------------------------------------- average true range

  function Max(x: real, y: real): real {
    if x >= y then x else y
  }

  function TrueRange(prev: Candle, cur: Candle): real {
    Max(cur.high - cur.low, Max(Abs(cur.high - prev.close), Abs(cur.low - prev.close)))
  }

  /** The true ranges of candles from..upto - 1 added up. */
  function SumRanges(cs: seq<Candle>, from: nat, upto: nat): real
    requires 1 <= from <= upto <= |cs|
  {
    if from == upto then 0.0 else SumRanges(cs, from, upto - 1) + TrueRange(cs[upto - 2], cs[upto - 1])
  }

  function Atr(cs: seq<Candle>, period: int): Option<real> {
    if period <= 0 || |cs| < period + 1 then None
    else Some(SumRanges(cs, |cs| - period, |cs|) / period as real)
  }

  predicate RangeWithin(cs: seq<Candle>, k: nat, lo: real, hi: real)
    requires 1 <= k < |cs|
  {
    lo <= TrueRange(cs[k - 1], cs[k]) <= hi
  }

  lemma {:induction false} SumIsBetween(cs: seq<Candle>, from: nat, upto: nat, lo: real, hi: real)
    requires 1 <= from <= upto <= |cs| && forall k :: from <= k < upto ==> RangeWithin(cs, k, lo, hi)
    ensures Times(lo, upto - from) <= SumRanges(cs, from, upto) <= Times(hi, upto - from)
  {
    if from < upto {
      SumIsBetween(cs, from, upto - 1, lo, hi);
      assert RangeWithin(cs, upto - 1, lo, hi);
    }
  }

  function Times(x: real, n: nat): real {
    if n == 0 then 0.0 else Times(x, n - 1) + x
  }

  lemma {:induction false} TimesIsProduct(x: real, n: nat)
    ensures Times(x, n) == x * n as real
  {
    if n > 0 {
      TimesIsProduct(x, n - 1);
      var m := (n - 1) as real;
      assert n as real == m + 1.0 && x * (m + 1.0) == x * m + x;
    }
  }

  /** The ATR lies within any bounds on the true ranges of the last period candles; so it is their common
      value if they are all alike. */
  lemma AtrIsBetweenRanges(cs: seq<Candle>, period: nat, lo: real, hi: real)
    requires 0 < period < |cs| && forall k :: |cs| - period <= k < |cs| ==> RangeWithin(cs, k, lo, hi)
    ensures Atr(cs, period).Some? && lo <= Atr(cs, period).value <= hi
  {
    SumIsBetween(cs, |cs| - period, |cs|, lo, hi);
    TimesIsProduct(lo, period);
    TimesIsProduct(hi, period);
    Divided(SumRanges(cs, |cs| - period, |cs|), period as real, lo, hi);
  }

  lemma Divided(sum: real, n: real, lo: real, hi: real)
    requires n > 0.0 && lo * n <= sum <= hi * n
    ensures lo <= sum / n <= hi
  {
    assert lo == lo * n / n && hi == hi * n / n;
  }

  method ComputeAtr(candles: seq<Candle>, period: int) returns (atr: Option<real>)
    ensures atr == Atr(candles, period)
  {
    if |candles| < period + 1 { return None; }
    var start := |candles| - period;
    var sum, count := 0.0, 0;
    var i := start;
    while i < |candles|
      invariant if period >= 0 then start <= i <= |candles| else i == start
      invariant count == i - start && (period >= 0 ==> sum == SumRanges(candles, start, i))
    {
      var prev, cur := candles[i - 1], candles[i];
      sum := sum + Max(cur.high - cur.low, Max(Abs(cur.high - prev.close), Abs(cur.low - prev.close)));
      count := count + 1;
      i := i + 1;
    }
    if count == 0 { return None; }
    atr := Some(sum / count as real);
  }

  /** A true range is the span that the candle covers together with the close before it. */
  lemma TrueRangeIsSpan(prev: Candle, cur: Candle)
    requires cur.low <= cur.high
    ensures TrueRange(prev, cur) == Max(cur.high, prev.close) - (if cur.low <= prev.close then cur.low else prev.close)
  {}

  lemma {:induction false} SumOfTail(cs: seq<Candle>, cut: nat, from: nat, upto: nat)
    requires 1 <= from <= upto && cut + upto <= |cs|
    ensures SumRanges(cs[cut..], from, upto) == SumRanges(cs, cut + from, cut + upto)
  {
    if from < upto {
      SumOfTail(cs, cut, from, upto - 1);
    }
  }

  /** The bound on the candle history never shows: the ATR of what is kept is the ATR of the whole
      history. */
  lemma AtrOfTail(cs: seq<Candle>, cap: nat, period: int)
    requires period > 0 ==> cap >= period + 1
    ensures Atr(Tail(cs, cap), period) == Atr(cs, period)
  {
    if period > 0 && |cs| > cap {
      SumOfTail(cs, |cs| - cap, cap - period, cap);
    }
  }
}
